/** Signal networks: the phase validator, evaluation, pole faults, and the conflict check before publication. */
module SignalConflict {
  import opened Options
  import opened SignalPlan

  const MILLISECOND_NS: int := 1_000_000
  const MAXIMUM_COUNTDOWN_NS: int := 3600 * SECOND_NS
  const AGREEMENT_TOLERANCE_NS: int := MILLISECOND_NS

  datatype SignalKind = Vehicle | Pedestrian

  datatype RawPhase = RawPhase(durationMs: int, green: seq<int>, yellow: seq<int>)
  datatype RawPlan = RawPlan(id: int, offsetMs: int, groups: seq<int>, phases: seq<RawPhase>)

  /** `left` is the protected-left group, zero when there is none. */
  datatype Head = Head(id: int, controller: int, group: int, kind: SignalKind, left: int)

  datatype Network = Network(heads: seq<Head>, plans: map<int, Plan>)

  // ---- The validator ----

  predicate Distinct(s: seq<int>) {
    forall i, j :: 0 <= i < j < |s| ==> s[i] != s[j]
  }

  function Members(s: seq<int>): set<int> {
    set x | x in s
  }

  /** Groups that only pedestrian heads show. */
  ghost predicate PedestrianOnly(heads: seq<Head>, controller: int, group: int) {
    && (exists h :: h in heads && h.kind == Pedestrian && h.controller == controller && h.group == group)
    && (forall h :: h in heads && h.controller == controller ==> !(h.kind == Vehicle && h.group == group))
    && (forall h :: h in heads && h.controller == controller ==> h.left == 0 || h.left != group)
  }

  ghost predicate PhaseIsValid(heads: seq<Head>, controller: int, groups: seq<int>, phase: RawPhase) {
    && 100 <= phase.durationMs <= 120000 && Distinct(phase.green) && Distinct(phase.yellow)
    && (forall g :: g in phase.green ==> g !in phase.yellow)
    && (forall g :: g in phase.green || g in phase.yellow ==> g in groups)
    && OneApproach(heads, controller, phase)
  }

  /** At most one group proceeds, unless all that proceed are walkers. */
  ghost predicate OneApproach(heads: seq<Head>, controller: int, phase: RawPhase) {
    || (forall g, h :: g in phase.green + phase.yellow && h in phase.green + phase.yellow ==> g == h)
    || (forall g :: g in phase.green + phase.yellow ==> PedestrianOnly(heads, controller, g))
  }

  function Loaded(phase: RawPhase): Phase {
    Phase(phase.durationMs * MILLISECOND_NS, Members(phase.green), Members(phase.yellow))
  }

  function LoadedPhases(phases: seq<RawPhase>): (loaded: seq<Phase>)
    ensures |loaded| == |phases| && forall i :: 0 <= i < |phases| ==> loaded[i] == Loaded(phases[i])
  {
    seq(|phases|, i requires 0 <= i < |phases| => Loaded(phases[i]))
  }

  function LoadedPlan(plan: RawPlan): Plan {
    Plan(plan.offsetMs * MILLISECOND_NS, LoadedPhases(plan.phases))
  }

  ghost predicate PlanIsValid(heads: seq<Head>, plan: RawPlan) {
    && 1 <= plan.id <= 64 && 0 < |plan.groups| <= 64 && Distinct(plan.groups)
    && (forall g :: g in plan.groups ==> 1 <= g <= 4096)
    && 0 < |plan.phases| <= 64
    && (forall i :: 0 <= i < |plan.phases| ==> PhaseIsValid(heads, plan.id, plan.groups, plan.phases[i]))
    && Cycle(LoadedPhases(plan.phases)) <= 3600 * SECOND_NS
    && 0 <= plan.offsetMs * MILLISECOND_NS < Cycle(LoadedPhases(plan.phases))
  }

  ghost predicate PlansAreValid(heads: seq<Head>, plans: seq<RawPlan>) {
    && (forall i :: 0 <= i < |plans| ==> PlanIsValid(heads, plans[i]))
    && (forall i, j :: 0 <= i < j < |plans| ==> plans[i].id != plans[j].id)
    && (forall i, j :: 0 <= i < j < |plans| ==> forall g :: g in plans[i].groups ==> g !in plans[j].groups)
  }

  ghost predicate Owns(plans: seq<RawPlan>, controller: int, group: int) {
    exists i :: 0 <= i < |plans| && plans[i].id == controller && group in plans[i].groups
  }

  ghost predicate HeadIsValid(plans: seq<RawPlan>, head: Head) {
    && head.id > 0 && 1 <= head.group <= 4096 && 1 <= head.controller <= 64 && Owns(plans, head.controller, head.group)
    && 0 <= head.left <= 4096
    && (head.left != 0 ==> head.left != head.group && head.kind == Vehicle && Owns(plans, head.controller, head.left))
  }

  ghost predicate NetworkIsValid(heads: seq<Head>, plans: seq<RawPlan>) {
    && 0 < |heads| <= 32 && 0 < |plans| <= 32 && PlansAreValid(heads, plans)
    && (forall i :: 0 <= i < |heads| ==> HeadIsValid(plans, heads[i]))
    && (forall i, j :: 0 <= i < j < |heads| ==> heads[i].id != heads[j].id)
    && (forall c, g :: Owns(plans, c, g) ==> Shown(heads, g))
  }

  predicate Shown(heads: seq<Head>, group: int) {
    exists i :: 0 <= i < |heads| && (heads[i].group == group || (heads[i].left != 0 && heads[i].left == group))
  }

  method PedestrianOnlyGroups(heads: seq<Head>) returns (groups: set<(int, int)>)
    ensures forall c, g :: (c, g) in groups <==> PedestrianOnly(heads, c, g)
  {
    var pedestrian := set h | h in heads && h.kind == Pedestrian :: (h.controller, h.group);
    var vehicle := set h | h in heads && h.kind != Pedestrian :: (h.controller, h.group);
    vehicle := vehicle + set h | h in heads && h.left != 0 :: (h.controller, h.left);
    groups := pedestrian - vehicle;
  }

  method PhaseIsAcceptable(
    heads: seq<Head>, controller: int, groups: seq<int>, phase: RawPhase, walkers: set<(int, int)>)
    returns (valid: bool)
    requires forall c, g :: (c, g) in walkers <==> PedestrianOnly(heads, c, g)
    ensures valid <==> PhaseIsValid(heads, controller, groups, phase)
  {
    hide PedestrianOnly;
    if !(100 <= phase.durationMs <= 120000) || !Distinct(phase.green) || !Distinct(phase.yellow) {
      return false;
    }
    if exists g :: g in phase.green && g in phase.yellow {
      return false;
    }
    if exists g :: g in phase.green + phase.yellow && g !in groups {
      return false;
    }
    var active := set g | g in phase.green + phase.yellow :: (controller, g);
    assert forall g :: g in phase.green + phase.yellow <==> (controller, g) in active;
    AtMostOne(active);
    if |active| > 1 {
      var x, y :| x in active && y in active && x != y;
      assert x.1 in phase.green + phase.yellow && y.1 in phase.green + phase.yellow && x.1 != y.1;
      if !(active <= walkers) {
        var z :| z in active && z !in walkers;
        assert z == (controller, z.1) && z.1 in phase.green + phase.yellow;
        return false;
      }
    } else {
      forall g, h | g in phase.green + phase.yellow && h in phase.green + phase.yellow
        ensures g == h
      {
        assert (controller, g) in active && (controller, h) in active;
      }
    }
    valid := true;
  }

  lemma {:induction false} AtMostOne(s: set<(int, int)>)
    ensures |s| <= 1 ==> forall x, y :: x in s && y in s ==> x == y
    ensures |s| > 1 ==> exists x, y :: x in s && y in s && x != y
  {
    if s != {} {
      var x :| x in s;
      var rest := s - {x};
      assert |rest| == |s| - 1;
      if rest != {} {
        var y :| y in rest;
        assert |rest| > 0;
      }
    }
  }

  lemma {:induction false} OneMorePlan(heads: seq<Head>, plans: seq<RawPlan>, plan: RawPlan)
    ensures PlansAreValid(heads, plans + [plan]) <==>
      && PlansAreValid(heads, plans) && PlanIsValid(heads, plan)
      && (forall i :: 0 <= i < |plans| ==> plans[i].id != plan.id)
      && (forall g, c :: g in plan.groups ==> !Owns(plans, c, g))
    ensures forall c, g :: Owns(plans + [plan], c, g) <==> Owns(plans, c, g) || (c == plan.id && g in plan.groups)
  {
    hide PlanIsValid;
    var more := plans + [plan];
    assert more[|plans|] == plan && forall i :: 0 <= i < |plans| ==> more[i] == plans[i];
    assert plan.groups == more[|plans|].groups;
    forall i, g | 0 <= i < |plans| && g in plans[i].groups
      ensures Owns(plans, plans[i].id, g)
    {
    }
  }

  ghost predicate OwnersOf(plans: seq<RawPlan>, owners: map<int, int>) {
    && (forall g :: g in owners ==> Owns(plans, owners[g], g))
    && (forall c, g :: Owns(plans, c, g) ==> g in owners && owners[g] == c)
  }

  ghost predicate LoadedFrom(plans: seq<RawPlan>, loaded: map<int, Plan>) {
    && (forall id :: id in loaded ==> exists i :: 0 <= i < |plans| && plans[i].id == id)
    && (forall i :: 0 <= i < |plans| ==> plans[i].id in loaded && loaded[plans[i].id] == LoadedPlan(plans[i]))
  }

  lemma {:induction false} OneMoreLoaded(plans: seq<RawPlan>, plan: RawPlan, loaded: map<int, Plan>)
    requires LoadedFrom(plans, loaded) && plan.id !in loaded
    ensures LoadedFrom(plans + [plan], loaded[plan.id := LoadedPlan(plan)])
  {
    hide LoadedPlan;
    var more := plans + [plan];
    assert more[|plans|] == plan && forall i :: 0 <= i < |plans| ==> more[i] == plans[i];
  }

  /** Accepts exactly the valid plan lists, and returns each controller's plan and each group's owner. */
  method LoadPlans(heads: seq<Head>, plans: seq<RawPlan>)
    returns (valid: bool, loaded: map<int, Plan>, owners: map<int, int>)
    ensures valid <==> PlansAreValid(heads, plans)
    ensures valid ==> LoadedFrom(plans, loaded) && OwnersOf(plans, owners)
  {
    hide PlanIsValid, PedestrianOnly, PlansAreValid, Owns, LoadedPlan;
    var walkers := PedestrianOnlyGroups(heads);
    loaded, owners := map[], map[];
    NoPlans(heads);
    assert plans[..0] == [];
    for k := 0 to |plans|
      invariant PlansAreValid(heads, plans[..k]) && LoadedFrom(plans[..k], loaded) && OwnersOf(plans[..k], owners)
    {
      var plan := plans[k];
      OneMorePlan(heads, plans[..k], plan);
      assert plans[..k + 1] == plans[..k] + [plan];
      var acceptable := PlanIsAcceptable(heads, plan, walkers);
      if !acceptable || plan.id in loaded || exists g :: g in plan.groups && g in owners {
        PrefixIsValid(heads, plans, k + 1);
        return false, loaded, owners;
      }
      OneMoreLoaded(plans[..k], plan, loaded);
      loaded := loaded[plan.id := LoadedPlan(plan)];
      owners := owners + (map g | g in plan.groups :: plan.id);
    }
    assert plans[..|plans|] == plans;
    valid := true;
  }

  lemma NoPlans(heads: seq<Head>)
    ensures PlansAreValid(heads, []) && forall c, g :: !Owns([], c, g)
  {
  }

  lemma {:induction false} PrefixIsValid(heads: seq<Head>, plans: seq<RawPlan>, k: nat)
    requires k <= |plans|
    ensures PlansAreValid(heads, plans) ==> PlansAreValid(heads, plans[..k])
  {
    hide PlanIsValid;
    var first := plans[..k];
    assert forall i :: 0 <= i < k ==> first[i] == plans[i];
  }

  method PlanIsAcceptable(heads: seq<Head>, plan: RawPlan, walkers: set<(int, int)>) returns (valid: bool)
    requires forall c, g :: (c, g) in walkers <==> PedestrianOnly(heads, c, g)
    ensures valid <==> PlanIsValid(heads, plan)
  {
    hide PhaseIsValid, PedestrianOnly;
    if !(1 <= plan.id <= 64) || !(0 < |plan.groups| <= 64) || !Distinct(plan.groups)
       || exists g :: g in plan.groups && !(1 <= g <= 4096) {
      return false;
    }
    for i := 0 to |plan.phases|
      invariant forall j :: 0 <= j < i ==> PhaseIsValid(heads, plan.id, plan.groups, plan.phases[j])
    {
      var acceptable := PhaseIsAcceptable(heads, plan.id, plan.groups, plan.phases[i], walkers);
      if !acceptable {
        return false;
      }
    }
    var cycle := Cycle(LoadedPhases(plan.phases));
    valid := 0 < |plan.phases| <= 64 && cycle <= 3600 * SECOND_NS && 0 <= plan.offsetMs * MILLISECOND_NS < cycle;
  }

  /** None stands for a refused network file. */
  method LoadNetwork(heads: seq<Head>, plans: seq<RawPlan>) returns (network: Option<Network>)
    ensures network.Some? <==> NetworkIsValid(heads, plans)
    ensures network.Some? ==> network.value.heads == heads
    ensures network.Some? ==> LoadedFrom(plans, network.value.plans)
  {
    hide PlanIsValid, PedestrianOnly, PlansAreValid, Owns, LoadedFrom, Shown;
    if !(0 < |heads| <= 32) || !(0 < |plans| <= 32) {
      return None;
    }
    var valid, loaded, owners := LoadPlans(heads, plans);
    if !valid {
      return None;
    }
    for k := 0 to |heads|
      invariant forall i :: 0 <= i < k ==> HeadIsValid(plans, heads[i])
      invariant forall i, j :: 0 <= i < j < k ==> heads[i].id != heads[j].id
    {
      var head := heads[k];
      if head.id <= 0 || exists i :: 0 <= i < k && heads[i].id == head.id {
        return None;
      }
      if !(1 <= head.group <= 4096) || !(1 <= head.controller <= 64)
         || !(head.group in owners && owners[head.group] == head.controller) || !(0 <= head.left <= 4096) {
        return None;
      }
      if head.left != 0 && (head.left == head.group || head.kind != Vehicle
                            || !(head.left in owners && owners[head.left] == head.controller)) {
        return None;
      }
    }
    if exists g :: g in owners && !Shown(heads, g) {
      return None;
    }
    network := Some(Network(heads, loaded));
  }

  // ---- Evaluation and faults ----

  datatype Snapshot = Snapshot(
    id: int, group: int, controller: int, kind: SignalKind, aspect: SignalAspect, remainingNs: int,
    left: int, leftAspect: SignalAspect, leftRemainingNs: int, outOfService: bool)

  /** What a head shows at an instant. */
  ghost predicate Shows(plan: Plan, head: Head, timeNs: int, enabled: bool, sample: Snapshot)
    requires ValidPhases(plan.phases)
  {
    && sample.id == head.id && sample.group == head.group && sample.controller == head.controller
    && sample.kind == head.kind && sample.left == head.left && !sample.outOfService
    && (if enabled then CountdownExact(plan, head.group, timeNs, Signal(sample.aspect, sample.remainingNs))
        else sample.aspect == Red && sample.remainingNs == 0)
    && (if head.left == 0 then sample.leftAspect == Unknown && sample.leftRemainingNs == 0
        else if enabled then CountdownExact(plan, head.left, timeNs, Signal(sample.leftAspect, sample.leftRemainingNs))
        else sample.leftAspect == Red && sample.leftRemainingNs == 0)
  }

  ghost predicate Playable(network: Network) {
    forall h :: h in network.heads ==> h.controller in network.plans && ValidPhases(network.plans[h.controller].phases)
  }

  method SignalsAt(network: Network, elapsedNs: int, enabled: bool) returns (samples: seq<Snapshot>)
    requires Playable(network)
    ensures |samples| == |network.heads|
    ensures forall i :: 0 <= i < |samples| ==>
      Shows(network.plans[network.heads[i].controller], network.heads[i], elapsedNs, enabled, samples[i])
  {
    hide CountdownExact;
    samples := [];
    for i := 0 to |network.heads|
      invariant |samples| == i
      invariant forall j :: 0 <= j < i ==>
        Shows(network.plans[network.heads[j].controller], network.heads[j], elapsedNs, enabled, samples[j])
    {
      var head := network.heads[i];
      var plan := network.plans[head.controller];
      var own, left := Signal(Red, 0), Signal(if head.left != 0 then Red else Unknown, 0);
      if enabled {
        own := PlannedSignal(plan, head.group, elapsedNs);
        if head.left != 0 {
          left := PlannedSignal(plan, head.left, elapsedNs);
        }
      }
      samples := samples + [Snapshot(head.id, head.group, head.controller, head.kind, own.aspect, own.remainingNs,
        head.left, left.aspect, left.remainingNs, false)];
    }
  }

  /** A damaged structure; only a disabled signal pole darkens its head. */
  datatype Structure = Structure(isSignalPole: bool, disabled: bool, signalId: int)

  function Darkened(sample: Snapshot): Snapshot {
    sample.(aspect := Red, remainingNs := 0, leftAspect := if sample.left != 0 then Red else Unknown,
            leftRemainingNs := 0, outOfService := true)
  }

  predicate Faulted(structures: seq<Structure>, id: int) {
    exists k :: 0 <= k < |structures| && structures[k].isSignalPole && structures[k].disabled
      && structures[k].signalId == id
  }

  method ApplySignalFaults(samples: seq<Snapshot>, structures: seq<Structure>) returns (next: seq<Snapshot>)
    ensures |next| == |samples|
    ensures forall i :: 0 <= i < |samples| ==>
      next[i] == if Faulted(structures, samples[i].id) then Darkened(samples[i]) else samples[i]
  {
    next := samples;
    for i := 0 to |samples|
      invariant |next| == |samples|
      invariant forall j :: i <= j < |samples| ==> next[j] == samples[j]
      invariant forall j :: 0 <= j < i ==>
        next[j] == if Faulted(structures, samples[j].id) then Darkened(samples[j]) else samples[j]
    {
      var sample := samples[i];
      for k := 0 to |structures|
        invariant sample == if Faulted(structures[..k], samples[i].id) then Darkened(samples[i]) else samples[i]
      {
        var structure := structures[k];
        assert structures[..k + 1] == structures[..k] + [structure];
        assert forall j :: 0 <= j < k ==> structures[..k + 1][j] == structures[..k][j];
        if structure.isSignalPole && structure.disabled && sample.id == structure.signalId {
          assert structures[..k + 1][k] == structure;
          sample := Darkened(sample);
        }
      }
      assert structures[..|structures|] == structures;
      next := next[i := sample];
    }
  }

  // ---- The check before publication ----

  /** One permission on the wire: a head's own group or its protected left. */
  datatype Movement = Movement(
    controller: int, group: int, aspect: SignalAspect, remainingNs: int, vehicle: bool, outOfService: bool)

  predicate Permitted(m: Movement) {
    m.aspect == Yellow || m.aspect == Green
  }

  function MovementsOf(sample: Snapshot): seq<Movement> {
    var own := Movement(sample.controller, sample.group, sample.aspect, sample.remainingNs, sample.kind == Vehicle,
      sample.outOfService);
    if sample.left == 0 then [own]
    else [own, Movement(sample.controller, sample.left, sample.leftAspect, sample.leftRemainingNs,
      sample.kind == Vehicle,
                 sample.outOfService)]
  }

  function Movements(samples: seq<Snapshot>): seq<Movement> {
    if samples == [] then [] else Movements(samples[..|samples| - 1]) + MovementsOf(samples[|samples| - 1])
  }

  predicate FormatIsValid(sample: Snapshot) {
    && sample.id != 0 && 1 <= sample.group <= 4096 && 1 <= sample.controller <= 64
    && (sample.outOfService ==> sample.aspect == Red && sample.remainingNs == 0)
    && 0 <= sample.leftRemainingNs <= MAXIMUM_COUNTDOWN_NS && 0 <= sample.remainingNs <= MAXIMUM_COUNTDOWN_NS
    && (sample.left == 0 ==> sample.leftAspect == Unknown && sample.leftRemainingNs == 0)
    && (sample.left != 0 ==>
          && 0 < sample.left <= 4096 && sample.left != sample.group && sample.kind == Vehicle
          && sample.leftAspect != Unknown
          && (sample.outOfService ==> sample.leftAspect == Red && sample.leftRemainingNs == 0))
  }

  /** No controller lets a vehicle movement proceed together with another group. */
  ghost predicate ConflictFree(ms: seq<Movement>) {
    forall i, j ::
      (0 <= i < |ms| && 0 <= j < |ms| && Permitted(ms[i]) && Permitted(ms[j])
       && ms[i].controller == ms[j].controller && ms[i].vehicle)
      ==> ms[i].group == ms[j].group
  }

  /** What the latest head in service showed for a group. */
  function LatestState(ms: seq<Movement>, key: (int, int)): Option<Signal> {
    if ms == [] then None
    else
      var m := ms[|ms| - 1];
      if !m.outOfService && (m.controller, m.group) == key then Some(Signal(m.aspect, m.remainingNs))
      else LatestState(ms[..|ms| - 1], key)
  }

  predicate Agrees(previous: Option<Signal>, m: Movement) {
    m.outOfService || previous.None?
    || (previous.value.aspect == m.aspect
        && -AGREEMENT_TOLERANCE_NS <= previous.value.remainingNs - m.remainingNs <= AGREEMENT_TOLERANCE_NS)
  }

  /** Every head in service agrees with the latest one before it in its group. */
  ghost predicate AgreeInOrder(ms: seq<Movement>) {
    forall k :: 0 <= k < |ms| ==> Agrees(LatestState(ms[..k], (ms[k].controller, ms[k].group)), ms[k])
  }

  ghost predicate Publishable(samples: seq<Snapshot>) {
    && |samples| <= 32 && (forall i :: 0 <= i < |samples| ==> FormatIsValid(samples[i]))
    && (forall i, j :: 0 <= i < j < |samples| ==> samples[i].id != samples[j].id)
    && ConflictFree(Movements(samples)) && AgreeInOrder(Movements(samples))
  }

  /** The verdict on conflicts does not depend on the order of the heads. */
  lemma {:induction false} ConflictIsOrderFree(first: seq<Movement>, second: seq<Movement>)
    requires multiset(first) == multiset(second)
    ensures ConflictFree(first) == ConflictFree(second)
  {
    if ConflictFree(first) {
      ConflictOfSame(first, second);
    }
    if ConflictFree(second) {
      ConflictOfSame(second, first);
    }
  }

  lemma {:induction false} ConflictOfSame(first: seq<Movement>, second: seq<Movement>)
    requires multiset(first) == multiset(second) && ConflictFree(first)
    ensures ConflictFree(second)
  {
    forall j | 0 <= j < |second|
      ensures exists i :: 0 <= i < |first| && first[i] == second[j]
    {
      assert second[j] in multiset(second);
      assert second[j] in multiset(first);
    }
  }

  /** The agreement check is not order-free: its tolerance is applied to neighbours only. */
  lemma {:induction false} AgreementDependsOnOrder()
    ensures var near, middle, far := Movement(1, 1, Red, 0, true, false),
        Movement(1, 1, Red, AGREEMENT_TOLERANCE_NS, true, false),
        Movement(1, 1, Red, 2 * AGREEMENT_TOLERANCE_NS, true, false);
      AgreeInOrder([near, middle, far]) && !AgreeInOrder([near, far, middle])
  {
    var near, middle, far := Movement(1, 1, Red, 0, true, false),
      Movement(1, 1, Red, AGREEMENT_TOLERANCE_NS, true, false),
      Movement(1, 1, Red, 2 * AGREEMENT_TOLERANCE_NS, true, false);
    var good, bad := [near, middle, far], [near, far, middle];
    assert good[..0] == [] && good[..1] == [near] && good[..2] == [near, middle];
    assert bad[..1] == [near] && bad[1] == far;
    assert LatestState([near], (1, 1)) == Some(Signal(Red, 0));
    assert LatestState([near, middle], (1, 1)) == Some(Signal(Red, AGREEMENT_TOLERANCE_NS));
    assert !Agrees(LatestState(bad[..1], (bad[1].controller, bad[1].group)), bad[1]);
  }

  /**
   * Every two heads in service show one group alike, within the tolerance, however far apart they stand in the list.
   */
  ghost predicate PairwiseAgree(ms: seq<Movement>) {
    forall m, n :: m in ms && n in ms && SameGroupInService(m, n) ==> AgreePair(m, n)
  }

  predicate SameGroupInService(m: Movement, n: Movement) {
    !m.outOfService && !n.outOfService && m.controller == n.controller && m.group == n.group
  }

  predicate AgreePair(m: Movement, n: Movement) {
    Agrees(Some(Signal(m.aspect, m.remainingNs)), n)
  }

  lemma {:induction false} MovedFirst<T>(s: seq<T>, i: nat) returns (p: seq<T>)
    requires i < |s|
    ensures p == [s[i]] + s[..i] + s[i + 1..] && multiset(p) == multiset(s)
  {
    assert s == s[..i] + [s[i]] + s[i + 1..];
    p := [s[i]] + s[..i] + s[i + 1..];
  }

  /** Some arrangement of a list starts with any two of its elements. */
  lemma {:induction false} BroughtToFront<T>(s: seq<T>, i: nat, j: nat) returns (p: seq<T>)
    requires i < |s| && j < |s| && i != j
    ensures multiset(p) == multiset(s) && |p| >= 2 && p[0] == s[i] && p[1] == s[j]
  {
    var first := MovedFirst(s, i);
    var rest := first[1..];
    assert first == [s[i]] + rest;
    var others := MovedFirst(rest, if j < i then j else j - 1);
    p := [s[i]] + others;
  }

  lemma {:induction false} SamePairs(first: seq<Movement>, second: seq<Movement>)
    requires multiset(first) == multiset(second)
    ensures PairwiseAgree(first) == PairwiseAgree(second)
  {
    hide AgreePair;
    assert forall m :: m in first <==> m in multiset(first);
    assert forall m :: m in second <==> m in multiset(second);
  }

  lemma {:induction false} PairsGiveOrder(ms: seq<Movement>)
    requires PairwiseAgree(ms)
    ensures AgreeInOrder(ms)
  {
    forall k | 0 <= k < |ms|
      ensures Agrees(LatestState(ms[..k], (ms[k].controller, ms[k].group)), ms[k])
    {
      var key := (ms[k].controller, ms[k].group);
      if LatestState(ms[..k], key).Some? && !ms[k].outOfService {
        var j := LatestOrigin(ms[..k], key);
        assert ms[j] in ms && ms[k] in ms && SameGroupInService(ms[j], ms[k]);
      }
    }
  }

  /** The agreement verdict survives every reordering of the movements exactly when every two of them agree. */
  lemma {:induction false} AgreementIsOrderFreeExactly(ms: seq<Movement>)
    ensures (forall p :: multiset(p) == multiset(ms) ==> AgreeInOrder(p)) <==> PairwiseAgree(ms)
  {
    if PairwiseAgree(ms) {
      forall p | multiset(p) == multiset(ms)
        ensures AgreeInOrder(p)
      {
        SamePairs(p, ms);
        PairsGiveOrder(p);
      }
    } else {
      var m, n :| m in ms && n in ms && SameGroupInService(m, n) && !AgreePair(m, n);
      var i :| 0 <= i < |ms| && ms[i] == m;
      var j :| 0 <= j < |ms| && ms[j] == n;
      var p := BroughtToFront(ms, i, j);
      assert p[..1] == [m];
      FirstShows(m);
      assert !Agrees(LatestState(p[..1], (p[1].controller, p[1].group)), p[1]);
      assert multiset(p) == multiset(ms) && !AgreeInOrder(p);
    }
  }

  lemma {:induction false} FirstShows(m: Movement)
    requires !m.outOfService
    ensures LatestState([m], (m.controller, m.group)) == Some(Signal(m.aspect, m.remainingNs))
  {
    assert [m][..0] == [];
  }

  // ---- The same for whole heads, each of which brings one or two movements ----

  lemma {:induction false} SameHeads(first: seq<Snapshot>, second: seq<Snapshot>)
    requires multiset(first) == multiset(second)
    ensures PairwiseAgree(Movements(first)) == PairwiseAgree(Movements(second))
  {
    hide AgreePair, PairwiseAgree;
    SameMovements(first, second);
    SameMovements(second, first);
    PairsOfSameMembers(Movements(first), Movements(second));
  }

  lemma {:induction false} PairsOfSameMembers(first: seq<Movement>, second: seq<Movement>)
    requires forall m :: m in first <==> m in second
    ensures PairwiseAgree(first) == PairwiseAgree(second)
  {
    hide AgreePair;
  }

  lemma {:induction false} SameMovements(first: seq<Snapshot>, second: seq<Snapshot>)
    requires multiset(first) == multiset(second)
    ensures forall m :: m in Movements(first) ==> m in Movements(second)
  {
    hide MovementsOf;
    forall m | m in Movements(first)
      ensures m in Movements(second)
    {
      var i :| 0 <= i < |Movements(first)| && Movements(first)[i] == m;
      var k := MovementOrigin(first, i);
      assert first[k] in multiset(first);
      assert first[k] in multiset(second);
      var j :| 0 <= j < |second| && second[j] == first[k];
      MovementsOfHead(second, j, m);
    }
  }

  lemma {:induction false} MovementsOfHead(samples: seq<Snapshot>, k: nat, m: Movement)
    requires k < |samples| && m in MovementsOf(samples[k])
    ensures m in Movements(samples)
  {
    if k < |samples| - 1 {
      MovementsOfHead(samples[..|samples| - 1], k, m);
    }
  }

  /** One head shows no group twice. */
  lemma {:induction false} OneMovementPerGroup(sample: Snapshot, m: Movement, n: Movement)
    requires FormatIsValid(sample) && m in MovementsOf(sample) && n in MovementsOf(sample) && m.group == n.group
    ensures m == n
  {
  }

  /** Two heads at the front of a list that show one group differently are refused. */
  lemma {:induction false} FrontHeadsDisagree(p: seq<Snapshot>, m: Movement, n: Movement)
    requires |p| >= 2 && FormatIsValid(p[0]) && FormatIsValid(p[1])
    requires m in MovementsOf(p[0]) && n in MovementsOf(p[1]) && SameGroupInService(m, n) && !AgreePair(m, n)
    ensures !AgreeInOrder(Movements(p))
  {
    var first, second := MovementsOf(p[0]), MovementsOf(p[1]);
    var ms := Movements(p);
    MovementsPrefix(p, 2);
    TwoHeads(p[0], p[1]);
    assert p[..2] == [p[0], p[1]];
    assert first + second <= ms;
    var j :| 0 <= j < |second| && second[j] == n;
    var k := |first| + j;
    assert ms[k] == n && ms[..k] == first + second[..j];
    HeadShows(p[0], m);
    if j == 1 {
      assert second[..1] == [second[0]];
      OneMoreMovement(first, second[0]);
    } else {
      assert first + second[..0] == first;
    }
    assert !Agrees(LatestState(ms[..k], (ms[k].controller, ms[k].group)), ms[k]);
  }

  lemma {:induction false} TwoHeads(first: Snapshot, second: Snapshot)
    ensures Movements([first, second]) == MovementsOf(first) + MovementsOf(second)
  {
    hide MovementsOf;
    assert [first, second][..1] == [first] && [first][..0] == [];
    assert Movements([first]) == Movements([]) + MovementsOf(first);
  }

  /** After one head its own state of a group is the latest. */
  lemma {:induction false} HeadShows(sample: Snapshot, m: Movement)
    requires FormatIsValid(sample) && m in MovementsOf(sample) && !m.outOfService
    ensures LatestState(MovementsOf(sample), (m.controller, m.group)) == Some(Signal(m.aspect, m.remainingNs))
  {
    var ms := MovementsOf(sample);
    FirstShows(ms[0]);
    if sample.left != 0 {
      assert ms == [ms[0]] + [ms[1]];
      OneMoreMovement([ms[0]], ms[1]);
    }
  }

  /**
   * For well-formed heads: the verdict survives every reordering of the heads exactly when every two movements agree.
   */
  lemma {:induction false} HeadOrderIsFreeExactly(samples: seq<Snapshot>)
    requires forall i :: 0 <= i < |samples| ==> FormatIsValid(samples[i])
    ensures (forall p :: multiset(p) == multiset(samples) ==> AgreeInOrder(Movements(p)))
      <==> PairwiseAgree(Movements(samples))
  {
    hide FormatIsValid, MovementsOf, AgreeInOrder;
    if PairwiseAgree(Movements(samples)) {
      forall p | multiset(p) == multiset(samples)
        ensures AgreeInOrder(Movements(p))
      {
        SameHeads(p, samples);
        PairsGiveOrder(Movements(p));
      }
    } else {
      var ms := Movements(samples);
      var m, n :| m in ms && n in ms && SameGroupInService(m, n) && !AgreePair(m, n);
      var i :| 0 <= i < |ms| && ms[i] == m;
      var j :| 0 <= j < |ms| && ms[j] == n;
      var a := MovementOrigin(samples, i);
      var b := MovementOrigin(samples, j);
      if a == b {
        OneMovementPerGroup(samples[a], m, n);
        SelfAgrees(m);
      } else {
        var p := BroughtToFront(samples, a, b);
        FrontHeadsDisagree(p, m, n);
      }
    }
  }

  lemma {:induction false} SelfAgrees(m: Movement)
    ensures AgreePair(m, m)
  {
  }

  datatype PermittedGroups = PermittedGroups(groups: set<int>, hasVehicle: bool)
  datatype Book = Book(permitted: map<int, PermittedGroups>, states: map<(int, int), Signal>)

  ghost predicate BookOf(ms: seq<Movement>, book: Book) {
    && (forall i :: 0 <= i < |ms| && Permitted(ms[i]) ==>
          && ms[i].controller in book.permitted && ms[i].group in book.permitted[ms[i].controller].groups
          && (ms[i].vehicle ==> book.permitted[ms[i].controller].hasVehicle))
    && (forall c, g :: c in book.permitted && g in book.permitted[c].groups ==>
          exists i :: 0 <= i < |ms| && Permitted(ms[i]) && ms[i].controller == c && ms[i].group == g)
    && (forall c :: c in book.permitted && book.permitted[c].hasVehicle ==>
          exists i :: 0 <= i < |ms| && Permitted(ms[i]) && ms[i].controller == c && ms[i].vehicle)
    && (forall key :: key in book.states ==> LatestState(ms, key) == Some(book.states[key]))
    && (forall key :: LatestState(ms, key).Some? ==> key in book.states)
  }

  lemma EmptyBook()
    ensures BookOf([], Book(map[], map[])) && ConflictFree([]) && AgreeInOrder([])
  {
  }

  lemma {:induction false} OneMoreMovement(ms: seq<Movement>, m: Movement)
    ensures var more := ms + [m];
      && AgreeInOrder(more) == (AgreeInOrder(ms) && Agrees(LatestState(ms, (m.controller, m.group)), m))
      && forall key :: LatestState(more, key)
           == if !m.outOfService && (m.controller, m.group) == key then Some(Signal(m.aspect, m.remainingNs))
              else LatestState(ms, key)
  {
    hide Agrees;
    var more := ms + [m];
    assert more[..|ms|] == ms;
    assert forall k :: 0 <= k < |ms| ==> more[..k] == ms[..k] && more[k] == ms[k];
    if AgreeInOrder(more) {
      assert Agrees(LatestState(more[..|ms|], (more[|ms|].controller, more[|ms|].group)), more[|ms|]);
      forall k | 0 <= k < |ms|
        ensures Agrees(LatestState(ms[..k], (ms[k].controller, ms[k].group)), ms[k])
      {
        assert Agrees(LatestState(more[..k], (more[k].controller, more[k].group)), more[k]);
      }
    }
  }

  /** Records one movement; false when it conflicts or disagrees with what is on the book. */
  method RegisterMovement(ms: seq<Movement>, book: Book, m: Movement) returns (next: Book, accepted: bool)
    requires BookOf(ms, book) && ConflictFree(ms) && AgreeInOrder(ms)
    ensures accepted <==> ConflictFree(ms + [m]) && AgreeInOrder(ms + [m])
    ensures accepted ==> BookOf(ms + [m], next)
  {
    hide LatestState, Agrees, AgreeInOrder;
    OneMoreMovement(ms, m);
    next := book;
    if Permitted(m) {
      var before := if m.controller in book.permitted then book.permitted[m.controller] else PermittedGroups({}, false);
      var permitted := PermittedGroups(before.groups + {m.group}, before.hasVehicle || m.vehicle);
      next := next.(permitted := next.permitted[m.controller := permitted]);
      SeveralGroups(before.groups, m.group);
      if |permitted.groups| > 1 && permitted.hasVehicle {
        ConflictFound(ms, book, m);
        return next, false;
      }
      NoConflictAdded(ms, book, m);
    } else {
      assert ConflictFree(ms + [m]);
    }
    var key := (m.controller, m.group);
    var previous := if key in next.states then Some(next.states[key]) else None;
    assert previous == LatestState(ms, key);
    if !Agrees(previous, m) {
      return next, false;
    }
    if !m.outOfService {
      next := next.(states := next.states[key := Signal(m.aspect, m.remainingNs)]);
    }
    BookGrows(ms, book, m, next);
    accepted := true;
  }

  lemma {:induction false} SeveralGroups(groups: set<int>, g: int)
    ensures |groups + {g}| > 1 <==> exists h :: h in groups && h != g
  {
    if h :| h in groups && h != g {
      assert {h, g} <= groups + {g};
      SubsetSize({h, g}, groups + {g});
    } else {
      assert forall x :: x in groups ==> x == g;
      assert groups + {g} == {g};
    }
  }

  lemma {:induction false} SubsetSize(a: set<int>, b: set<int>)
    requires a <= b
    ensures |a| <= |b|
  {
    assert b == a + (b - a);
  }

  lemma {:induction false} ConflictFound(ms: seq<Movement>, book: Book, m: Movement)
    requires BookOf(ms, book) && ConflictFree(ms) && Permitted(m)
    requires m.controller in book.permitted && exists h :: h in book.permitted[m.controller].groups && h != m.group
    requires book.permitted[m.controller].hasVehicle || m.vehicle
    ensures !ConflictFree(ms + [m])
  {
    var more := ms + [m];
    assert more[|ms|] == m && forall i :: 0 <= i < |ms| ==> more[i] == ms[i];
    var h :| h in book.permitted[m.controller].groups && h != m.group;
    var i :| 0 <= i < |ms| && Permitted(ms[i]) && ms[i].controller == m.controller && ms[i].group == h;
    if !m.vehicle {
      var j :| 0 <= j < |ms| && Permitted(ms[j]) && ms[j].controller == m.controller && ms[j].vehicle;
      assert more[j].group == more[i].group || !ConflictFree(more);
    }
    assert more[i] == ms[i];
  }

  lemma NoConflictAdded(ms: seq<Movement>, book: Book, m: Movement)
    requires BookOf(ms, book) && ConflictFree(ms) && Permitted(m)
    requires m.controller in book.permitted ==>
      || (forall h :: h in book.permitted[m.controller].groups ==> h == m.group)
      || !(book.permitted[m.controller].hasVehicle || m.vehicle)
    ensures ConflictFree(ms + [m])
  {
  }

  lemma {:induction false} BookGrows(ms: seq<Movement>, book: Book, m: Movement, next: Book)
    requires BookOf(ms, book)
    requires var key := (m.controller, m.group);
      next.states == if m.outOfService then book.states else book.states[key := Signal(m.aspect, m.remainingNs)]
    requires if !Permitted(m) then next.permitted == book.permitted
             else
               var before := if m.controller in book.permitted then book.permitted[m.controller]
                 else PermittedGroups({}, false);
               next.permitted == book.permitted[m.controller :=
                 PermittedGroups(before.groups + {m.group}, before.hasVehicle || m.vehicle)]
    ensures BookOf(ms + [m], next)
  {
    hide LatestState;
    OneMoreMovement(ms, m);
    var more := ms + [m];
    assert more[|ms|] == m && forall i :: 0 <= i < |ms| ==> more[i] == ms[i];
  }

  lemma {:induction false} PrefixAgrees(first: seq<Movement>, ms: seq<Movement>)
    requires first <= ms && AgreeInOrder(ms)
    ensures AgreeInOrder(first)
  {
    hide LatestState, Agrees;
    forall i | 0 <= i < |first|
      ensures Agrees(LatestState(first[..i], (first[i].controller, first[i].group)), first[i])
    {
      assert first[..i] == ms[..i] && first[i] == ms[i];
    }
  }

  lemma {:induction false} PrefixIsConflictFree(first: seq<Movement>, ms: seq<Movement>)
    requires first <= ms && ConflictFree(ms)
    ensures ConflictFree(first)
  {
    assert forall i :: 0 <= i < |first| ==> first[i] == ms[i];
  }

  lemma {:induction false} PrefixIsPublishable(samples: seq<Snapshot>, k: nat)
    requires k <= |samples|
    ensures Publishable(samples) ==> Publishable(samples[..k])
  {
    hide AgreeInOrder, ConflictFree, FormatIsValid, Movements;
    if Publishable(samples) {
      MovementsPrefix(samples, k);
      PrefixAgrees(Movements(samples[..k]), Movements(samples));
      PrefixIsConflictFree(Movements(samples[..k]), Movements(samples));
    }
  }

  lemma {:induction false} MovementsPrefix(samples: seq<Snapshot>, k: nat)
    requires k <= |samples|
    ensures Movements(samples[..k]) <= Movements(samples)
  {
    if k < |samples| {
      var most := samples[..|samples| - 1];
      MovementsPrefix(most, k);
      assert most[..k] == samples[..k];
    } else {
      assert samples[..k] == samples;
    }
  }

  /** Publication accepts exactly the publishable snapshot lists. */
  method CheckSnapshots(samples: seq<Snapshot>) returns (accepted: bool)
    ensures accepted <==> Publishable(samples)
  {
    hide FormatIsValid, ConflictFree, AgreeInOrder, BookOf, MovementsOf;
    if |samples| > 32 {
      return false;
    }
    EmptyBook();
    var book := Book(map[], map[]);
    for k := 0 to |samples|
      invariant Publishable(samples[..k]) && BookOf(Movements(samples[..k]), book)
    {
      PrefixIsPublishable(samples, k + 1);
      var sample := samples[k];
      if !FormatIsValid(sample) || exists i :: 0 <= i < k && samples[i].id == sample.id {
        return false;
      }
      var before := Movements(samples[..k]);
      MovementShape(sample);
      assert samples[..k + 1][..k] == samples[..k];
      assert Movements(samples[..k + 1]) == before + MovementsOf(sample);
      var own := MovementsOf(sample)[0];
      var accepted1;
      book, accepted1 := RegisterMovement(before, book, own);
      if sample.left != 0 {
        var left := MovementsOf(sample)[1];
        assert before + [own, left] == (before + [own]) + [left];
        if !accepted1 {
          StillRejected(before + [own], left);
          return false;
        }
        var accepted2;
        book, accepted2 := RegisterMovement(before + [own], book, left);
        if !accepted2 {
          return false;
        }
      } else if !accepted1 {
        return false;
      }
    }
    assert samples[..|samples|] == samples;
    accepted := true;
  }

  lemma MovementShape(sample: Snapshot)
    ensures |MovementsOf(sample)| == (if sample.left == 0 then 1 else 2)
    ensures sample.left == 0 ==> MovementsOf(sample) == [MovementsOf(sample)[0]]
    ensures sample.left != 0 ==> MovementsOf(sample) == [MovementsOf(sample)[0], MovementsOf(sample)[1]]
  {
  }

  lemma {:induction false} StillRejected(ms: seq<Movement>, m: Movement)
    requires !(ConflictFree(ms) && AgreeInOrder(ms))
    ensures !(ConflictFree(ms + [m]) && AgreeInOrder(ms + [m]))
  {
    OneMoreMovement(ms, m);
    var more := ms + [m];
    assert forall i :: 0 <= i < |ms| ==> more[i] == ms[i];
    hide AgreeInOrder, LatestState;
  }

  // ---- A validated network is always publishable ----

  /** What a movement of a validated network shows, faults included. */
  ghost predicate Lawful(network: Network, timeNs: int, enabled: bool, m: Movement) {
    && m.controller in network.plans && ValidPhases(network.plans[m.controller].phases)
    && (exists i :: 0 <= i < |network.heads| && network.heads[i].controller == m.controller
          && (network.heads[i].kind == Vehicle <==> m.vehicle)
          && (network.heads[i].group == m.group || (network.heads[i].left != 0 && network.heads[i].left == m.group)))
    && (if m.outOfService then m.aspect == Red
        else if enabled then CountdownExact(network.plans[m.controller], m.group, timeNs,
          Signal(m.aspect, m.remainingNs))
        else m.aspect == Red && m.remainingNs == 0)
  }

  ghost predicate Displayed(
    network: Network, timeNs: int, enabled: bool, structures: seq<Structure>, samples: seq<Snapshot>)
    requires Playable(network)
  {
    && |samples| == |network.heads|
    && forall i :: 0 <= i < |samples| ==> HeadDisplay(network, timeNs, enabled, structures, i, samples[i])
  }

  ghost predicate HeadDisplay(
    network: Network, timeNs: int, enabled: bool, structures: seq<Structure>, i: nat, sample: Snapshot)
    requires Playable(network) && i < |network.heads|
  {
    var head := network.heads[i];
    exists shown: Snapshot :: Shows(network.plans[head.controller], head, timeNs, enabled, shown)
      && sample == if Faulted(structures, shown.id) then Darkened(shown) else shown
  }

  lemma {:induction false} OwnedPlan(
    heads: seq<Head>, plans: seq<RawPlan>, network: Network, controller: int, group: int) returns (k: nat)
    requires NetworkIsValid(heads, plans) && LoadedFrom(plans, network.plans) && Owns(plans, controller, group)
    ensures k < |plans| && plans[k].id == controller && controller in network.plans
    ensures network.plans[controller] == LoadedPlan(plans[k]) && ValidPhases(network.plans[controller].phases)
    ensures PlanIsValid(heads, plans[k])
  {
    hide PedestrianOnly, OneApproach;
    k :| 0 <= k < |plans| && plans[k].id == controller && group in plans[k].groups;
    assert PlanIsValid(heads, plans[k]);
    var phases := LoadedPhases(plans[k].phases);
    forall i | 0 <= i < |phases|
      ensures phases[i].durationNs > 0
    {
      assert PhaseIsValid(heads, plans[k].id, plans[k].groups, plans[k].phases[i]);
    }
  }

  lemma {:induction false} ValidNetworkIsPlayable(heads: seq<Head>, plans: seq<RawPlan>, network: Network)
    requires NetworkIsValid(heads, plans) && network.heads == heads && LoadedFrom(plans, network.plans)
    ensures Playable(network)
  {
    hide PlanIsValid, LoadedFrom, PlansAreValid;
    forall h | h in heads
      ensures h.controller in network.plans && ValidPhases(network.plans[h.controller].phases)
    {
      var i :| 0 <= i < |heads| && heads[i] == h;
      assert HeadIsValid(plans, heads[i]);
      var k := OwnedPlan(heads, plans, network, h.controller, h.group);
    }
  }

  lemma {:induction false} HeadIsPublishable(
    heads: seq<Head>, plans: seq<RawPlan>, network: Network, timeNs: int, enabled: bool, structures: seq<Structure>,
    i: nat, sample: Snapshot)
    requires NetworkIsValid(heads, plans) && network.heads == heads && LoadedFrom(plans, network.plans)
    requires Playable(network) && i < |heads| && HeadDisplay(network, timeNs, enabled, structures, i, sample)
    ensures sample.id == heads[i].id && FormatIsValid(sample)
    ensures forall m :: m in MovementsOf(sample) ==> Lawful(network, timeNs, enabled, m)
  {
    hide CountdownExact, PlansAreValid, LoadedFrom, NetworkIsValid;
    var head := heads[i];
    assert HeadIsValid(plans, head) by {
      ValidHead(heads, plans, i);
    }
    var k := OwnedPlan(heads, plans, network, head.controller, head.group);
    var plan := network.plans[head.controller];
    var shown: Snapshot :| Shows(plan, head, timeNs, enabled, shown)
      && sample == if Faulted(structures, shown.id) then Darkened(shown) else shown;
    if enabled {
      CountdownFacts(plan, head.group, timeNs, Signal(shown.aspect, shown.remainingNs));
      if head.left != 0 {
        CountdownFacts(plan, head.left, timeNs, Signal(shown.leftAspect, shown.leftRemainingNs));
      }
    }
    MovementShape(sample);
  }

  lemma ValidHead(heads: seq<Head>, plans: seq<RawPlan>, i: nat)
    requires NetworkIsValid(heads, plans) && i < |heads|
    ensures HeadIsValid(plans, heads[i])
  {
  }

  lemma {:induction false} CountdownFacts(plan: Plan, group: int, timeNs: int, signal: Signal)
    requires ValidPhases(plan.phases) && CountdownExact(plan, group, timeNs, signal)
    ensures 0 <= signal.remainingNs < Cycle(plan.phases) && signal.aspect != Unknown
  {
    CountdownIsBounded(plan, group, timeNs, signal);
  }

  /** A permitted movement's group is on the phase that is running. */
  lemma {:induction false} PermittedInPhase(plan: Plan, group: int, timeNs: int, signal: Signal) returns (i: nat)
    requires ValidPhases(plan.phases) && CountdownExact(plan, group, timeNs, signal)
    requires signal.aspect == Yellow || signal.aspect == Green
    ensures i == PhaseAt(plan.phases, Position(plan, timeNs)) && i < |plan.phases|
    ensures group in plan.phases[i].green || group in plan.phases[i].yellow
  {
    i := PhaseAt(plan.phases, Position(plan, timeNs));
  }

  /** Two lawful permissions of one controller, one of them for vehicles, are for the same group. */
  lemma {:induction false} LawfulDoNotConflict(
    heads: seq<Head>, plans: seq<RawPlan>, network: Network, timeNs: int, enabled: bool, first: Movement,
    second: Movement)
    requires NetworkIsValid(heads, plans) && network.heads == heads && LoadedFrom(plans, network.plans)
    requires Lawful(network, timeNs, enabled, first) && Lawful(network, timeNs, enabled, second)
    requires Permitted(first) && Permitted(second) && first.controller == second.controller && first.vehicle
    ensures first.group == second.group
  {
    hide CountdownExact, PlansAreValid, LoadedFrom, NetworkIsValid, AspectAt, Position, PhaseAt, PedestrianOnly;
    var c := first.controller;
    var plan := network.plans[c];
    var h :| 0 <= h < |heads| && heads[h].controller == c && heads[h].kind == Vehicle
      && (heads[h].group == first.group || (heads[h].left != 0 && heads[h].left == first.group));
    ValidHead(heads, plans, h);
    var k := OwnedPlan(heads, plans, network, c, heads[h].group);
    var i := PermittedInPhase(plan, first.group, timeNs, Signal(first.aspect, first.remainingNs));
    var j := PermittedInPhase(plan, second.group, timeNs, Signal(second.aspect, second.remainingNs));
    var phase := plans[k].phases[i];
    assert PhaseIsValid(heads, c, plans[k].groups, phase);
    assert plan.phases[i] == Loaded(phase);
    assert first.group in phase.green + phase.yellow && second.group in phase.green + phase.yellow;
    VehicleHeadExcludes(heads, h, first.group);
  }

  lemma {:induction false} VehicleHeadExcludes(heads: seq<Head>, h: nat, group: int)
    requires h < |heads| && heads[h].kind == Vehicle
    requires heads[h].group == group || (heads[h].left != 0 && heads[h].left == group)
    ensures !PedestrianOnly(heads, heads[h].controller, group)
  {
    assert heads[h] in heads;
  }

  lemma {:induction false} MovementOrigin(samples: seq<Snapshot>, i: nat) returns (k: nat)
    requires i < |Movements(samples)|
    ensures k < |samples| && Movements(samples)[i] in MovementsOf(samples[k])
  {
    var most := samples[..|samples| - 1];
    if i < |Movements(most)| {
      k := MovementOrigin(most, i);
    } else {
      k := |samples| - 1;
    }
  }

  lemma {:induction false} LatestOrigin(ms: seq<Movement>, key: (int, int)) returns (j: nat)
    requires LatestState(ms, key).Some?
    ensures j < |ms| && !ms[j].outOfService && (ms[j].controller, ms[j].group) == key
    ensures LatestState(ms, key) == Some(Signal(ms[j].aspect, ms[j].remainingNs))
  {
    var m := ms[|ms| - 1];
    if !m.outOfService && (m.controller, m.group) == key {
      j := |ms| - 1;
    } else {
      j := LatestOrigin(ms[..|ms| - 1], key);
    }
  }

  lemma {:induction false} LawfulAgree(network: Network, timeNs: int, enabled: bool, first: Movement, second: Movement)
    requires Lawful(network, timeNs, enabled, first) && Lawful(network, timeNs, enabled, second)
    requires !first.outOfService && !second.outOfService
    requires first.controller == second.controller && first.group == second.group
    ensures Agrees(Some(Signal(first.aspect, first.remainingNs)), second)
  {
    hide CountdownExact;
    if enabled {
      CountdownIsUnique(network.plans[first.controller], first.group, timeNs,
        Signal(first.aspect, first.remainingNs), Signal(second.aspect, second.remainingNs));
    }
  }

  /** Whatever the time and whichever poles have failed, a validated network passes the check. */
  lemma {:induction false} ValidatedNeverTrips(
    heads: seq<Head>, plans: seq<RawPlan>, network: Network, timeNs: int, enabled: bool, structures: seq<Structure>,
    samples: seq<Snapshot>)
    requires NetworkIsValid(heads, plans) && network.heads == heads && LoadedFrom(plans, network.plans)
    requires Playable(network) && Displayed(network, timeNs, enabled, structures, samples)
    ensures Publishable(samples)
  {
    hide NetworkIsValid, LoadedFrom, HeadDisplay, FormatIsValid, Lawful, MovementsOf, Agrees, Playable;
    HeadsAreDistinct(heads, plans);
    forall i: nat | i < |samples|
      ensures samples[i].id == heads[i].id && FormatIsValid(samples[i])
      ensures forall m :: m in MovementsOf(samples[i]) ==> Lawful(network, timeNs, enabled, m)
    {
      HeadIsPublishable(heads, plans, network, timeNs, enabled, structures, i, samples[i]);
    }
    var ms := Movements(samples);
    forall i: nat | i < |ms|
      ensures Lawful(network, timeNs, enabled, ms[i])
    {
      var k := MovementOrigin(samples, i);
    }
    forall i: nat, j: nat | i < |ms| && j < |ms| && Permitted(ms[i]) && Permitted(ms[j])
      && ms[i].controller == ms[j].controller && ms[i].vehicle
      ensures ms[i].group == ms[j].group
    {
      LawfulDoNotConflict(heads, plans, network, timeNs, enabled, ms[i], ms[j]);
    }
    forall k: nat | k < |ms|
      ensures Agrees(LatestState(ms[..k], (ms[k].controller, ms[k].group)), ms[k])
    {
      LawfulFollows(network, timeNs, enabled, ms, k);
    }
  }

  lemma {:induction false} LawfulFollows(network: Network, timeNs: int, enabled: bool, ms: seq<Movement>, k: nat)
    requires k < |ms| && forall i: nat :: i < |ms| ==> Lawful(network, timeNs, enabled, ms[i])
    ensures Agrees(LatestState(ms[..k], (ms[k].controller, ms[k].group)), ms[k])
  {
    hide Lawful;
    var key := (ms[k].controller, ms[k].group);
    if LatestState(ms[..k], key).Some? && !ms[k].outOfService {
      var j := LatestOrigin(ms[..k], key);
      LawfulAgree(network, timeNs, enabled, ms[j], ms[k]);
    }
  }

  lemma HeadsAreDistinct(heads: seq<Head>, plans: seq<RawPlan>)
    requires NetworkIsValid(heads, plans)
    ensures |heads| <= 32 && forall i, j :: 0 <= i < j < |heads| ==> heads[i].id != heads[j].id
  {
  }

  /** A validated network meets the condition, so its verdict never depends on the order of its heads. */
  lemma {:induction false} ValidatedAgreesPairwise(
    heads: seq<Head>, plans: seq<RawPlan>, network: Network, timeNs: int, enabled: bool, structures: seq<Structure>,
    samples: seq<Snapshot>)
    requires NetworkIsValid(heads, plans) && network.heads == heads && LoadedFrom(plans, network.plans)
    requires Playable(network) && Displayed(network, timeNs, enabled, structures, samples)
    ensures PairwiseAgree(Movements(samples))
    ensures forall p :: multiset(p) == multiset(samples) ==> AgreeInOrder(Movements(p)) && ConflictFree(Movements(p))
  {
    hide NetworkIsValid, LoadedFrom, HeadDisplay, FormatIsValid, Lawful, MovementsOf, AgreePair, Playable, AgreeInOrder;
    forall i: nat | i < |samples|
      ensures FormatIsValid(samples[i])
      ensures forall m :: m in MovementsOf(samples[i]) ==> Lawful(network, timeNs, enabled, m)
    {
      HeadIsPublishable(heads, plans, network, timeNs, enabled, structures, i, samples[i]);
    }
    var ms := Movements(samples);
    forall m | m in ms
      ensures Lawful(network, timeNs, enabled, m)
    {
      var i :| 0 <= i < |ms| && ms[i] == m;
      var k := MovementOrigin(samples, i);
    }
    forall m, n | m in ms && n in ms && SameGroupInService(m, n)
      ensures AgreePair(m, n)
    {
      LawfulPair(network, timeNs, enabled, m, n);
    }
    HeadOrderIsFreeExactly(samples);
    ValidatedNeverTrips(heads, plans, network, timeNs, enabled, structures, samples);
    forall p | multiset(p) == multiset(samples)
      ensures ConflictFree(Movements(p))
    {
      SameMovements(p, samples);
      ConflictOfFewer(Movements(samples), Movements(p));
    }
  }

  lemma {:induction false} LawfulPair(network: Network, timeNs: int, enabled: bool, m: Movement, n: Movement)
    requires Lawful(network, timeNs, enabled, m) && Lawful(network, timeNs, enabled, n) && SameGroupInService(m, n)
    ensures AgreePair(m, n)
  {
    hide Lawful, Agrees;
    LawfulAgree(network, timeNs, enabled, m, n);
  }

  lemma {:induction false} ConflictOfFewer(ms: seq<Movement>, some: seq<Movement>)
    requires ConflictFree(ms) && forall m :: m in some ==> m in ms
    ensures ConflictFree(some)
  {
    forall j | 0 <= j < |some|
      ensures exists i :: 0 <= i < |ms| && ms[i] == some[j]
    {
      assert some[j] in ms;
    }
  }

  /** Load, evaluate, darken and check in one go: the check always passes. */
  method PublishValidated(heads: seq<Head>, plans: seq<RawPlan>, timeNs: int, enabled: bool, structures: seq<Structure>)
    returns (published: Option<seq<Snapshot>>, accepted: bool)
    ensures published.Some? <==> NetworkIsValid(heads, plans)
    ensures published.Some? ==> accepted && |published.value| == |heads|
  {
    hide NetworkIsValid, LoadedFrom, Shows, Publishable, Faulted;
    var network := LoadNetwork(heads, plans);
    if network.None? {
      return None, false;
    }
    ValidNetworkIsPlayable(heads, plans, network.value);
    var shown := SignalsAt(network.value, timeNs, enabled);
    var samples := ApplySignalFaults(shown, structures);
    forall i: nat | i < |samples|
      ensures HeadDisplay(network.value, timeNs, enabled, structures, i, samples[i])
    {
      assert Shows(network.value.plans[heads[i].controller], heads[i], timeNs, enabled, shown[i]);
    }
    ValidatedNeverTrips(heads, plans, network.value, timeNs, enabled, structures, samples);
    accepted := CheckSnapshots(samples);
    published := Some(samples);
  }
}
