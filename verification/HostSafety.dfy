/** What every run of the host protocol keeps: motion authority, fencing and per-connection order. */
module HostSafety {
  import opened Options
  import opened ControlLease
  import opened Fingerprint
  import opened HostProtocol

  /** The facts that every reachable host state satisfies. */
  ghost predicate HostInvariant(config: HostConfig, s: HostState) {
    && LeaseInvariant(s.lease)
    && (s.lease.safeStopActive || s.estopLatched ==> s.applied == SAFE_STOP)
    && 0 !in s.hellos && |s.hellos| <= MAXIMUM_HELLO_CONNECTIONS && |s.seenPlays| <= MAXIMUM_PLAY_SESSIONS
    && (if s.lifecycleActive then BoundLifecycle(config, s) else UnboundLifecycle(s))
  }

  /** An active lifecycle reserves the lease for exactly its own connection. */
  ghost predicate BoundLifecycle(config: HostConfig, s: HostState) {
    && Name(s.controllerSource) && Name(s.connectionSession)
    && s.lease.resetSessionKey == MakeKey(s.controllerSource, s.connectionSession)
    && (s.lease.activeKey != "" ==> s.lease.activeKey == s.lease.resetSessionKey)
    && (s.lease.resetSessionKey in s.lease.retired ==> RequiresReconnect(s.lease))
    && s.playKey == MakeKey(s.controllerSource, s.playId) && s.playKey in s.seenPlays
    && (config.requireClientHello ==> s.generation != 0)
  }

  ghost predicate UnboundLifecycle(s: HostState) {
    && s.lease.activeKey == "" && s.lease.lastReceiveTime == NEVER && s.lease.safeStopActive
    && s.playKey == "" && s.generation == 0
  }

  lemma InitialInvariant(config: HostConfig, mapChecksum: Text)
    ensures HostInvariant(config, InitialHost(mapChecksum))
  {
  }

  lemma NameHasNoNul(name: string)
    requires Name(name)
    ensures '\0' !in name
  {
  }

  lemma {:induction false} NamesFromKeys(source1: string, id1: string, source2: string, id2: string)
    requires Name(source1) && Name(source2)
    ensures MakeKey(source1, id1) == MakeKey(source2, id2) <==> source1 == source2 && id1 == id2
  {
    NameHasNoNul(source1);
    NameHasNoNul(source2);
    if MakeKey(source1, id1) == MakeKey(source2, id2) {
      KeyIsInjective(source1, id1, source2, id2);
    }
  }

  lemma {:induction false} RoomForOne(
    hellos: map<nat, HelloConnectionState>, generation: nat, state: HelloConnectionState)
    requires |hellos| <= MAXIMUM_HELLO_CONNECTIONS && 0 !in hellos && generation != 0
    ensures var next := WithRoom(hellos)[generation := state];
      |next| <= MAXIMUM_HELLO_CONNECTIONS && 0 !in next && generation in next
  {
    var room := WithRoom(hellos);
    assert room.Keys <= hellos.Keys;
    if |hellos| >= MAXIMUM_HELLO_CONNECTIONS {
      assert room.Keys == hellos.Keys - {Oldest(hellos.Keys)};
    }
    assert |room| < MAXIMUM_HELLO_CONNECTIONS;
    assert room[generation := state].Keys == room.Keys + {generation};
  }

  lemma {:induction false} RecordedKeys(
    hellos: map<nat, HelloConnectionState>, generation: nat, kind: ClientPayloadKind, sequence: UInt64,
    fingerprint: string)
    requires generation in hellos
    ensures Recorded(hellos, generation, kind, sequence, fingerprint).Keys == hellos.Keys
    ensures |Recorded(hellos, generation, kind, sequence, fingerprint)| == |hellos|
  {
    var next := Recorded(hellos, generation, kind, sequence, fingerprint);
    assert next.Keys == hellos.Keys;
    assert |next| == |next.Keys| && |hellos| == |hellos.Keys|;
  }

  lemma {:induction false} HelloKeepsInvariant(config: HostConfig, s: HostState, hello: ParsedHello, generation: nat)
    requires HostInvariant(config, s)
    ensures HostInvariant(config, HandleHello(config, s, hello, generation).state)
  {
    hide LeaseInvariant, BoundLifecycle, UnboundLifecycle, NegotiationFingerprint, HelloFingerprint, WithRoom, Recorded;
    if HelloIsValid(config, s.mapChecksum, hello, generation) {
      NegotiationIsShort(config, s.mapChecksum, hello, generation);
      var next := HandleHello(config, s, hello, generation).state;
      if generation in s.hellos {
        RecordedKeys(s.hellos, generation, HelloPayload, hello.sequence, HelloFingerprint(hello));
      } else {
        RoomForOne(s.hellos, generation, next.hellos[generation]);
      }
      SameLifecycle(config, s, next);
    }
  }

  lemma SameLifecycle(config: HostConfig, s: HostState, next: HostState)
    requires next == s.(hellos := next.hellos)
    ensures BoundLifecycle(config, next) == BoundLifecycle(config, s) && UnboundLifecycle(next) == UnboundLifecycle(s)
  {
  }

  lemma {:induction false} CommitKeepsInvariant(
    config: HostConfig, outcome: Outcome, generation: nat, kind: ClientPayloadKind, sequence: UInt64,
    fingerprint: string)
    requires HostInvariant(config, outcome.state)
    ensures HostInvariant(config, Committed(outcome, generation, kind, sequence, fingerprint).state)
  {
    hide LeaseInvariant, BoundLifecycle, UnboundLifecycle, Recorded;
    if generation in outcome.state.hellos {
      RecordedKeys(outcome.state.hellos, generation, kind, sequence, fingerprint);
    }
    SameLifecycle(config, outcome.state, Committed(outcome, generation, kind, sequence, fingerprint).state);
  }

  lemma {:induction false} ControlKeepsInvariant(
    config: HostConfig, s: HostState, command: ParsedControlCommand, generation: nat, receivedAt: Instant)
    requires HostInvariant(config, s)
    ensures HostInvariant(config, HandleControl(config, s, command, receivedAt, generation).state)
  {
    hide Name, MakeKey, Identifier;
    LeaseStepKeepsInvariant(config.timeouts, s.lease, Command(Stamp(command), receivedAt));
  }

  lemma {:induction false} SameConnectionKeepsInvariant(config: HostConfig, s: HostState, reset: ParsedSimulationReset)
    requires HostInvariant(config, s)
    ensures HostInvariant(config, SameConnectionReset(s, reset).state)
  {
    hide LeaseInvariant, Name, MakeKey, SameVehicle;
  }

  lemma {:induction false} ReconnectKeepsInvariant(
    config: HostConfig, s: HostState, reset: ParsedSimulationReset, generation: nat)
    requires HostInvariant(config, s) && (config.requireClientHello ==> generation != 0)
    requires Name(reset.sourceId) && Name(reset.sessionId) && !s.estopLatched
    requires MakeKey(reset.sourceId, reset.playSessionId) in s.seenPlays
    ensures HostInvariant(config, ReconnectReset(s, reset, generation).state)
  {
    hide Name, MakeKey, SameVehicle, LeaseInvariant;
    LeaseStepKeepsInvariant(config.timeouts, s.lease, Reconnect(reset.sourceId, reset.sessionId));
    if s.lifecycleActive {
      NamesFromKeys(reset.sourceId, reset.sessionId, s.controllerSource, s.connectionSession);
      NamesFromKeys(reset.sourceId, reset.playSessionId, s.controllerSource, s.playId);
    }
  }

  lemma {:induction false} FreshKeepsInvariant(
    config: HostConfig, s: HostState, reset: ParsedSimulationReset, generation: nat)
    requires HostInvariant(config, s) && (config.requireClientHello ==> generation != 0)
    requires Name(reset.sourceId) && Name(reset.sessionId)
    ensures HostInvariant(config, FreshReset(s, reset, generation).state)
  {
    hide Name, MakeKey, LeaseInvariant;
    LeaseStepKeepsInvariant(config.timeouts, s.lease, Begin(reset.sourceId, reset.sessionId));
  }

  lemma {:induction false} ResetKeepsInvariant(
    config: HostConfig, s: HostState, reset: ParsedSimulationReset, generation: nat, moving: bool)
    requires HostInvariant(config, s) && (config.requireClientHello ==> generation != 0)
    ensures HostInvariant(config, HandleReset(config, s, reset, generation, moving).state)
  {
    hide HostInvariant, Name, MakeKey, LoadoutNegotiated, SameVehicle, SameConnectionReset, ReconnectReset, FreshReset;
    if ResetIsValid(config, s, reset, generation, moving) {
      SameConnectionKeepsInvariant(config, s, reset);
      FreshKeepsInvariant(config, s, reset, generation);
      if MakeKey(reset.sourceId, reset.playSessionId) in s.seenPlays {
        ReconnectKeepsInvariant(config, s, reset, generation);
      }
    }
  }

  lemma {:induction false} MeasurementKeepsInvariant(
    config: HostConfig, s: HostState, m: Measurement, generation: nat, admitted: bool)
    requires HostInvariant(config, s)
    ensures HostInvariant(config, AfterMeasurement(config, s, m, generation, admitted).state)
  {
    hide LeaseInvariant, BoundLifecycle, UnboundLifecycle, Recorded, MeasurementEnabled;
    var next := AfterMeasurement(config, s, m, generation, admitted).state;
    if generation in s.hellos {
      RecordedKeys(s.hellos, generation, m.kind, m.sequence, "");
    }
    SameLifecycle(config, s, next);
  }

  lemma {:induction false} ReloadKeepsInvariant(config: HostConfig, s: HostState, mapChecksum: Text)
    requires HostInvariant(config, s)
    ensures HostInvariant(config, AfterMapReload(s, mapChecksum))
  {
    hide LeaseInvariant, BoundLifecycle;
    LeaseStepKeepsInvariant(config.timeouts, s.lease, NewSimulation);
  }

  lemma {:induction false} TickKeepsInvariant(config: HostConfig, s: HostState, now: Instant, pending: Option<Text>)
    requires HostInvariant(config, s)
    ensures HostInvariant(config, AfterTick(config, s, now, pending))
  {
    hide Name, MakeKey, LeaseInvariant, AfterMapReload;
    if pending.Some? {
      ReloadKeepsInvariant(config, s, pending.value);
    }
    var soft := AfterSoftDeadline(config.timeouts, s.lease, now);
    LeaseStepKeepsInvariant(config.timeouts, s.lease, SoftDeadline(now));
    LeaseStepKeepsInvariant(config.timeouts, soft, HardDeadline(now));
  }

  lemma {:induction false} StepKeepsHostInvariant(config: HostConfig, s: HostState, event: HostEvent)
    requires HostInvariant(config, s)
    ensures HostInvariant(config, Step(config, s, event))
  {
    hide HostInvariant, HandleHello, HandleControl, HandleReset, AfterMeasurement, AfterTick, Committed;
    match event
    case HelloMessage(hello, generation) => HelloKeepsInvariant(config, s, hello, generation);
    case ControlMessage(command, generation, at) =>
      ControlKeepsInvariant(config, s, command, generation, at);
      CommitKeepsInvariant(config, HandleControl(config, s, command, at, generation), generation, ControlPayload,
        command.sequence, ControlFingerprint(command));
    case ResetMessage(reset, generation, moving) =>
      if ConnectionAdmits(config, s, generation, ResetPayload, reset.sourceId, reset.sessionId, reset.sequence,
           ResetFingerprint(reset), false) {
        ResetKeepsInvariant(config, s, reset, generation, moving);
        CommitKeepsInvariant(config, HandleReset(config, s, reset, generation, moving), generation, ResetPayload,
          reset.sequence, ResetFingerprint(reset));
      }
    case MeasurementMessage(measurement, generation, admitted) =>
      MeasurementKeepsInvariant(config, s, measurement, generation, admitted);
    case Tick(now, pending) => TickKeepsInvariant(config, s, now, pending);
  }

  lemma {:induction false} RunStep(config: HostConfig, s: HostState, events: seq<HostEvent>, k: nat)
    requires 0 < k <= |events|
    ensures Run(config, s, events, k) == Step(config, Run(config, s, events, k - 1), events[k - 1])
  {
    hide Step;
  }

  lemma RunStart(config: HostConfig, s: HostState, events: seq<HostEvent>)
    ensures Run(config, s, events, 0) == s
  {
  }

  lemma {:induction false} RunKeepsInvariant(config: HostConfig, s: HostState, events: seq<HostEvent>, k: nat)
    requires HostInvariant(config, s) && k <= |events|
    ensures HostInvariant(config, Run(config, s, events, k))
  {
    hide HostInvariant, Step, Run;
    RunStart(config, s, events);
    if k > 0 {
      RunStep(config, s, events, k);
      RunKeepsInvariant(config, s, events, k - 1);
      StepKeepsHostInvariant(config, Run(config, s, events, k - 1), events[k - 1]);
    }
  }

  // ---- Motion authority ----

  datatype AcceptedControl = AcceptedControl(command: ParsedControlCommand, generation: nat, receivedAt: Instant)

  /** The most recent accepted control command. */
  ghost function LastControl(config: HostConfig, s: HostState, events: seq<HostEvent>, k: nat): Option<AcceptedControl>
    requires k <= |events|
  {
    if k == 0 then None
    else
      var event := events[k - 1];
      if event.ControlMessage? && Grants(config, Run(config, s, events, k - 1), event, ControlAccepted)
      then Some(AcceptedControl(event.command, event.generation, event.at))
      else LastControl(config, s, events, k - 1)
  }

  /**
   * Under SafeStop or a latched emergency stop the applied input is the SafeStop input. Otherwise it is the input of
   * the last accepted command, which named the present map and came from the connection that owns the active lifecycle.
   */
  ghost predicate Authorized(config: HostConfig, s: HostState, last: Option<AcceptedControl>) {
    if s.estopLatched || s.lease.safeStopActive then s.applied == SAFE_STOP
    else
      && last.Some? && s.applied == last.value.command.input && !last.value.command.estop && s.lifecycleActive
      && last.value.command.sourceId == s.controllerSource && last.value.command.sessionId == s.connectionSession
      && last.value.command.mapChecksum == s.mapChecksum
      && (config.requireClientHello ==> last.value.generation == s.generation)
      && s.lease.lastReceiveTime == last.value.receivedAt
  }

  ghost function NextLast(config: HostConfig, s: HostState, event: HostEvent, last: Option<AcceptedControl>)
    : Option<AcceptedControl>
  {
    if event.ControlMessage? && Grants(config, s, event, ControlAccepted)
    then Some(AcceptedControl(event.command, event.generation, event.at)) else last
  }

  lemma CommitKeepsAuthority(
    config: HostConfig, outcome: Outcome, generation: nat, kind: ClientPayloadKind, sequence: UInt64,
    fingerprint: string, last: Option<AcceptedControl>)
    requires Authorized(config, outcome.state, last)
    ensures Authorized(config, Committed(outcome, generation, kind, sequence, fingerprint).state, last)
  {
  }

  lemma CommitKeepsResult(
    outcome: Outcome, generation: nat, kind: ClientPayloadKind, sequence: UInt64, fingerprint: string)
    ensures var next := Committed(outcome, generation, kind, sequence, fingerprint);
      next.result == outcome.result && next.state.(hellos := outcome.state.hellos) == outcome.state
  {
  }

  lemma {:induction false} StepKeepsAuthority(
    config: HostConfig, s: HostState, event: HostEvent, last: Option<AcceptedControl>)
    requires HostInvariant(config, s) && Authorized(config, s, last)
    ensures Authorized(config, Step(config, s, event), NextLast(config, s, event, last))
  {
    hide Name, MakeKey, Committed, ControlFingerprint, ResetFingerprint, NegotiationFingerprint, HelloFingerprint,
      Recorded, WithRoom, LoadoutNegotiated, SameVehicle, HelloIsValid, MeasurementEnabled, Identifier;
    match event
    case HelloMessage(_, _) =>
    case ControlMessage(command, generation, at) =>
      if ConnectionAdmits(config, s, generation, ControlPayload, command.sourceId, command.sessionId, command.sequence,
           ControlFingerprint(command), command.estop) {
        CommitKeepsResult(HandleControl(config, s, command, at, generation), generation, ControlPayload,
          command.sequence, ControlFingerprint(command));
        CommitKeepsAuthority(config, HandleControl(config, s, command, at, generation), generation, ControlPayload,
          command.sequence, ControlFingerprint(command), NextLast(config, s, event, last));
      }
    case ResetMessage(reset, generation, moving) =>
      ResetKeepsAuthority(config, s, reset, generation, moving, last);
    case MeasurementMessage(_, _, _) =>
    case Tick(_, _) =>
  }

  lemma {:induction false} ResetKeepsAuthority(
    config: HostConfig, s: HostState, reset: ParsedSimulationReset, generation: nat, moving: bool,
    last: Option<AcceptedControl>)
    requires HostInvariant(config, s) && Authorized(config, s, last)
    ensures Authorized(config, AfterReset(config, s, reset, generation, moving).state, last)
  {
    hide Name, MakeKey, Committed, ResetFingerprint, Recorded, LoadoutNegotiated, SameVehicle, Identifier;
    if ConnectionAdmits(config, s, generation, ResetPayload, reset.sourceId, reset.sessionId, reset.sequence,
         ResetFingerprint(reset), false) {
      if ResetIsValid(config, s, reset, generation, moving) && s.lifecycleActive {
        NamesFromKeys(reset.sourceId, reset.sessionId, s.controllerSource, s.connectionSession);
      }
      CommitKeepsAuthority(config, HandleReset(config, s, reset, generation, moving), generation, ResetPayload,
        reset.sequence, ResetFingerprint(reset), last);
    }
  }

  /** Motion authority over every run from start-up. */
  lemma {:induction false} MotionAuthority(config: HostConfig, mapChecksum: Text, events: seq<HostEvent>, k: nat)
    requires k <= |events|
    ensures var s := Run(config, InitialHost(mapChecksum), events, k);
      HostInvariant(config, s) && Authorized(config, s, LastControl(config, InitialHost(mapChecksum), events, k))
  {
    hide HostInvariant, Authorized, Step, Run;
    var start := InitialHost(mapChecksum);
    InitialInvariant(config, mapChecksum);
    RunStart(config, start, events);
    RunKeepsInvariant(config, start, events, k);
    if k == 0 {
      InitialAuthority(config, mapChecksum);
    } else {
      RunStep(config, start, events, k);
      MotionAuthority(config, mapChecksum, events, k - 1);
      StepKeepsAuthority(config, Run(config, start, events, k - 1), events[k - 1],
        LastControl(config, start, events, k - 1));
    }
  }

  lemma InitialAuthority(config: HostConfig, mapChecksum: Text)
    ensures Authorized(config, InitialHost(mapChecksum), None)
  {
  }

  /** Right after a tick's prologue no command older than the soft timeout still drives. */
  lemma {:induction false} NoStaleCommandDrives(config: HostConfig, mapChecksum: Text, events: seq<HostEvent>, k: nat)
    requires 0 < k <= |events| && events[k - 1].Tick?
    ensures var s := Run(config, InitialHost(mapChecksum), events, k);
      var last := LastControl(config, InitialHost(mapChecksum), events, k);
      s.applied == SAFE_STOP
      || (last.Some? && s.applied == last.value.command.input
          && events[k - 1].now - last.value.receivedAt <= config.timeouts.soft)
  {
    hide HostInvariant, LastControl;
    MotionAuthority(config, mapChecksum, events, k);
    var before := Run(config, InitialHost(mapChecksum), events, k - 1);
    assert Run(config, InitialHost(mapChecksum), events, k) == Step(config, before, events[k - 1]);
  }

  /** The health report says Active exactly when a command, and not SafeStop, is in force. */
  lemma ActiveMeansAuthority(config: HostConfig, s: HostState)
    requires HostInvariant(config, s)
    ensures Health(s) == Active <==> !s.estopLatched && !s.lease.safeStopActive
    ensures Health(s) != Active ==> s.applied == SAFE_STOP
  {
  }

  /** A latched emergency stop is never undone, and the vehicle stays on the SafeStop input. */
  lemma {:induction false} EmergencyStopIsFinal(config: HostConfig, s: HostState, events: seq<HostEvent>, k: nat)
    requires HostInvariant(config, s) && s.estopLatched && k <= |events|
    ensures var later := Run(config, s, events, k);
      later.estopLatched && later.applied == SAFE_STOP
  {
    hide BoundLifecycle, UnboundLifecycle, LeaseInvariant, Step, Run;
    RunStart(config, s, events);
    RunKeepsInvariant(config, s, events, k);
    if k > 0 {
      RunStep(config, s, events, k);
      EmergencyStopIsFinal(config, s, events, k - 1);
      EmergencyStopStays(config, Run(config, s, events, k - 1), events[k - 1]);
    }
  }

  lemma {:induction false} EmergencyStopStays(config: HostConfig, s: HostState, event: HostEvent)
    requires s.estopLatched
    ensures Step(config, s, event).estopLatched
  {
    hide HelloIsValid, ResetIsValid, ConnectionAdmits, NegotiationFingerprint, HelloFingerprint, ControlFingerprint,
      ResetFingerprint, WithRoom, Recorded, Decide, MeasurementEnabled, Identifier;
  }

  // ---- Fencing ----

  /** Retired sessions and seen plays stay; a play becomes active only when it was not seen before. */
  ghost predicate FencesKept(s: HostState, next: HostState) {
    && s.lease.retired <= next.lease.retired && s.seenPlays <= next.seenPlays
    && (next.playKey == s.playKey || next.playKey == "" || next.playKey !in s.seenPlays)
  }

  lemma {:induction false} CommitKeepsFences(
    s: HostState, outcome: Outcome, generation: nat, kind: ClientPayloadKind, sequence: UInt64, fingerprint: string)
    requires FencesKept(s, outcome.state)
    ensures FencesKept(s, Committed(outcome, generation, kind, sequence, fingerprint).state)
  {
    hide Recorded;
  }

  lemma {:induction false} ControlKeepsFences(
    config: HostConfig, s: HostState, command: ParsedControlCommand, generation: nat, at: Instant)
    ensures FencesKept(s, AfterControl(config, s, command, generation, at).state)
  {
    hide Decide, Identifier, MakeKey, ConnectionAdmits, Committed, ControlFingerprint;
    CommitKeepsFences(s, HandleControl(config, s, command, at, generation), generation, ControlPayload,
      command.sequence, ControlFingerprint(command));
  }

  lemma {:induction false} ResetKeepsFences(
    config: HostConfig, s: HostState, reset: ParsedSimulationReset, generation: nat, moving: bool)
    ensures FencesKept(s, AfterReset(config, s, reset, generation, moving).state)
  {
    hide ResetIsValid, Identifier, MakeKey, SameVehicle, ConnectionAdmits, Committed, ResetFingerprint;
    CommitKeepsFences(s, HandleReset(config, s, reset, generation, moving), generation, ResetPayload, reset.sequence,
      ResetFingerprint(reset));
  }

  lemma {:induction false} HelloKeepsFences(config: HostConfig, s: HostState, hello: ParsedHello, generation: nat)
    ensures FencesKept(s, HandleHello(config, s, hello, generation).state)
  {
    hide HelloIsValid, NegotiationFingerprint, HelloFingerprint, WithRoom, Recorded;
  }

  lemma {:induction false} MessagesKeepFences(config: HostConfig, s: HostState, event: HostEvent)
    ensures FencesKept(s, Step(config, s, event))
  {
    hide FencesKept, AfterControl, AfterReset, HandleHello;
    match event
    case HelloMessage(hello, generation) => HelloKeepsFences(config, s, hello, generation);
    case ControlMessage(command, generation, at) => ControlKeepsFences(config, s, command, generation, at);
    case ResetMessage(reset, generation, moving) => ResetKeepsFences(config, s, reset, generation, moving);
    case MeasurementMessage(measurement, generation, admitted) =>
      MeasurementKeepsFences(config, s, measurement, generation, admitted);
    case Tick(now, pending) => TickKeepsFences(config, s, now, pending);
  }

  lemma {:induction false} MeasurementKeepsFences(
    config: HostConfig, s: HostState, m: Measurement, generation: nat, admitted: bool)
    ensures FencesKept(s, AfterMeasurement(config, s, m, generation, admitted).state)
  {
    hide MeasurementEnabled, Recorded;
  }

  lemma TickKeepsFences(config: HostConfig, s: HostState, now: Instant, pending: Option<Text>)
    ensures FencesKept(s, AfterTick(config, s, now, pending))
  {
  }

  lemma InvariantGivesLease(config: HostConfig, s: HostState)
    requires HostInvariant(config, s)
    ensures LeaseInvariant(s.lease)
  {
  }

  lemma {:induction false} FencesOnlyGrow(config: HostConfig, s: HostState, events: seq<HostEvent>, i: nat, k: nat)
    requires HostInvariant(config, s) && i <= k <= |events|
    ensures var early, late := Run(config, s, events, i), Run(config, s, events, k);
      early.lease.retired <= late.lease.retired && early.seenPlays <= late.seenPlays
  {
    hide HostInvariant, Step, Run;
    if i < k {
      FencesOnlyGrow(config, s, events, i, k - 1);
      RunStep(config, s, events, k);
      RunKeepsInvariant(config, s, events, k - 1);
      MessagesKeepFences(config, Run(config, s, events, k - 1), events[k - 1]);
    }
  }

  function PlayKeyOf(reset: ParsedSimulationReset): string {
    MakeKey(reset.sourceId, reset.playSessionId)
  }

  lemma {:induction false} PhysicsResetIsNew(config: HostConfig, s: HostState, event: HostEvent)
    requires event.ResetMessage? && Grants(config, s, event, SimulationReset)
    ensures PlayKeyOf(event.reset) !in s.seenPlays && PlayKeyOf(event.reset) in Step(config, s, event).seenPlays
  {
    hide Committed, ResetIsValid, ConnectionAdmits, ResetFingerprint, MakeKey, SameVehicle, Decide, DecideReconnect,
      AfterBegin;
    var reset, generation, moving := event.reset, event.generation, event.moving;
    CommitKeepsResult(HandleReset(config, s, reset, generation, moving), generation, ResetPayload,
      reset.sequence, ResetFingerprint(reset));
  }

  /** A play identity gets at most one physics reset in any run. */
  lemma {:induction false} OnePhysicsResetPerPlay(
    config: HostConfig, s: HostState, events: seq<HostEvent>, i: nat, j: nat)
    requires HostInvariant(config, s) && i < j < |events| && events[i].ResetMessage? && events[j].ResetMessage?
    requires Grants(config, Run(config, s, events, i), events[i], SimulationReset)
    requires Grants(config, Run(config, s, events, j), events[j], SimulationReset)
    ensures PlayKeyOf(events[i].reset) != PlayKeyOf(events[j].reset)
  {
    hide HostInvariant, Step, Run, PlayKeyOf, Grants;
    PhysicsResetIsNew(config, Run(config, s, events, i), events[i]);
    PhysicsResetIsNew(config, Run(config, s, events, j), events[j]);
    RunStep(config, s, events, i + 1);
    FencesOnlyGrow(config, s, events, i + 1, j);
  }

  /** A play that was seen and is no longer the active one never becomes active again. */
  lemma {:induction false} ReplacedPlayStaysReplaced(
    config: HostConfig, s: HostState, events: seq<HostEvent>, i: nat, k: nat, play: string)
    requires HostInvariant(config, s) && i <= k <= |events| && play != ""
    requires play in Run(config, s, events, i).seenPlays && play != Run(config, s, events, i).playKey
    ensures play != Run(config, s, events, k).playKey
  {
    hide HostInvariant, Step, Run;
    if i < k {
      ReplacedPlayStaysReplaced(config, s, events, i, k - 1, play);
      FencesOnlyGrow(config, s, events, i, k - 1);
      RunStep(config, s, events, k);
      RunKeepsInvariant(config, s, events, k - 1);
      MessagesKeepFences(config, Run(config, s, events, k - 1), events[k - 1]);
    }
  }

  lemma CommitKeepsGeneration(
    outcome: Outcome, generation: nat, kind: ClientPayloadKind, sequence: UInt64, fingerprint: string)
    ensures Committed(outcome, generation, kind, sequence, fingerprint).state.generation == outcome.state.generation
  {
  }

  lemma {:induction false} ControlKeepsGeneration(
    config: HostConfig, s: HostState, command: ParsedControlCommand, generation: nat, at: Instant)
    ensures AfterControl(config, s, command, generation, at).state.generation == s.generation
  {
    hide Committed, ConnectionAdmits, ControlFingerprint, Decide, Identifier, MakeKey, AfterCommand, OwnsLifecycle;
    CommitKeepsGeneration(HandleControl(config, s, command, at, generation), generation, ControlPayload,
      command.sequence, ControlFingerprint(command));
  }

  lemma {:induction false} HandledResetRaisesGeneration(
    config: HostConfig, s: HostState, reset: ParsedSimulationReset, generation: nat, moving: bool)
    requires s.lifecycleActive && s.generation != 0 && generation != 0
    ensures s.generation <= HandleReset(config, s, reset, generation, moving).state.generation
  {
    hide ResetIsValid, MakeKey, SameVehicle, DecideReconnect, AfterReconnect, AfterBegin, WithPlay;
  }

  lemma {:induction false} ResetRaisesGeneration(
    config: HostConfig, s: HostState, reset: ParsedSimulationReset, generation: nat, moving: bool)
    requires config.requireClientHello && s.lifecycleActive && s.generation != 0
    ensures s.generation <= AfterReset(config, s, reset, generation, moving).state.generation
  {
    hide Committed, HandleReset, ResetFingerprint;
    CommitKeepsGeneration(HandleReset(config, s, reset, generation, moving), generation, ResetPayload, reset.sequence,
      ResetFingerprint(reset));
    if generation != 0 {
      HandledResetRaisesGeneration(config, s, reset, generation, moving);
    }
  }

  lemma {:induction false} OthersKeepGeneration(config: HostConfig, s: HostState, event: HostEvent)
    requires event.HelloMessage? || event.MeasurementMessage? || event.Tick?
    ensures Step(config, s, event).generation == s.generation || !Step(config, s, event).lifecycleActive
  {
    hide HelloIsValid, NegotiationFingerprint, HelloFingerprint, WithRoom, Recorded, MeasurementEnabled,
      AfterSoftDeadline, AfterHardDeadline, AfterNewSimulation;
  }

  lemma {:induction false} GenerationStep(config: HostConfig, s: HostState, event: HostEvent)
    requires HostInvariant(config, s) && config.requireClientHello
    requires s.lifecycleActive && Step(config, s, event).lifecycleActive
    ensures s.generation <= Step(config, s, event).generation
  {
    hide AfterControl, AfterReset, HandleHello, AfterMeasurement, AfterTick, LeaseInvariant, UnboundLifecycle;
    match event
    case ControlMessage(command, generation, at) => ControlKeepsGeneration(config, s, command, generation, at);
    case ResetMessage(reset, generation, moving) => ResetRaisesGeneration(config, s, reset, generation, moving);
    case _ => OthersKeepGeneration(config, s, event);
  }

  /** With the Hello required, an older socket never takes the lifecycle back while it stays active. */
  lemma {:induction false} GenerationNeverDecreases(
    config: HostConfig, s: HostState, events: seq<HostEvent>, i: nat, k: nat)
    requires HostInvariant(config, s) && config.requireClientHello && i <= k <= |events|
    requires forall m :: i <= m <= k ==> Run(config, s, events, m).lifecycleActive
    ensures Run(config, s, events, i).generation <= Run(config, s, events, k).generation
  {
    hide HostInvariant, Step, Run;
    if i < k {
      GenerationNeverDecreases(config, s, events, i, k - 1);
      RunStep(config, s, events, k);
      RunKeepsInvariant(config, s, events, k - 1);
      GenerationStep(config, Run(config, s, events, k - 1), events[k - 1]);
    }
  }

  // ---- Per-connection order ----

  function GenerationOf(event: HostEvent): nat
    requires !event.Tick?
  {
    event.generation
  }

  function SequenceOf(event: HostEvent): UInt64
    requires !event.Tick?
  {
    match event
    case HelloMessage(hello, _) => hello.sequence
    case ControlMessage(command, _, _) => command.sequence
    case ResetMessage(reset, _, _) => reset.sequence
    case MeasurementMessage(measurement, _, _) => measurement.sequence
  }

  function KindOf(event: HostEvent): ClientPayloadKind
    requires !event.Tick?
  {
    match event
    case HelloMessage(_, _) => HelloPayload
    case ControlMessage(_, _, _) => ControlPayload
    case ResetMessage(_, _, _) => ResetPayload
    case MeasurementMessage(measurement, _, _) => measurement.kind
  }

  ghost predicate Short(event: HostEvent) {
    event.HelloMessage? ==>
      |event.hello.capabilities| < TWO_64 && |NegotiationFingerprint(event.hello)| < TWO_64
  }

  ghost function FingerprintOf(event: HostEvent): string
    requires !event.Tick? && Short(event)
  {
    match event
    case HelloMessage(hello, _) => HelloFingerprint(hello)
    case ControlMessage(command, _, _) => ControlFingerprint(command)
    case ResetMessage(reset, _, _) => ResetFingerprint(reset)
    case MeasurementMessage(_, _, _) => ""
  }

  ghost predicate AcceptedFrame(config: HostConfig, s: HostState, event: HostEvent, generation: nat) {
    !event.Tick? && GenerationOf(event) == generation && Reply(config, s, event).result != Rejected
  }

  /** The connection has recorded this frame, or a later one. */
  ghost predicate Remembers(
    s: HostState, generation: nat, sequence: UInt64, kind: ClientPayloadKind, fingerprint: string) {
    && generation in s.hellos
    && var known := s.hellos[generation];
      known.highestSequence > sequence
      || (known.highestSequence == sequence && known.lastKind == kind && known.lastFingerprint == fingerprint)
  }

  ghost predicate IsMeasurement(kind: ClientPayloadKind) {
    kind == GroundQueryPayload || kind == WorldRevisionPayload || kind == ObstaclePayload
  }

  lemma {:induction false} ControlResults(
    config: HostConfig, s: HostState, command: ParsedControlCommand, generation: nat, at: Instant)
    ensures var result := HandleControl(config, s, command, at, generation).result;
      result == Rejected || AdvancesSequence(result)
  {
    hide Decide, Identifier, AfterCommand, OwnsLifecycle;
  }

  lemma {:induction false} ResetResults(
    config: HostConfig, s: HostState, reset: ParsedSimulationReset, generation: nat, moving: bool)
    ensures var result := HandleReset(config, s, reset, generation, moving).result;
      result == Rejected || AdvancesSequence(result)
  {
    hide ResetIsValid, MakeKey, SameVehicle, AfterBegin, AfterReconnect, DecideReconnect;
  }

  /** An accepted frame is recorded, is never older than the connection's mark, and repeats it only identically. */
  lemma {:induction false} AcceptedFrameIsRecorded(config: HostConfig, s: HostState, event: HostEvent, generation: nat)
    requires AcceptedFrame(config, s, event, generation) && generation in Step(config, s, event).hellos
    ensures Short(event)
      && Remembers(Step(config, s, event), generation, SequenceOf(event), KindOf(event), FingerprintOf(event))
    ensures Step(config, s, event).hellos[generation].highestSequence == SequenceOf(event)
    ensures generation in s.hellos ==> s.hellos[generation].highestSequence <= SequenceOf(event)
    ensures generation in s.hellos && s.hellos[generation].highestSequence == SequenceOf(event) ==>
      && s.hellos[generation].lastKind == KindOf(event) && s.hellos[generation].lastFingerprint == FingerprintOf(event)
      && event.MeasurementMessage? == false
  {
    hide ResetIsValid, NegotiationFingerprint, HelloFingerprint, ControlFingerprint, ResetFingerprint, WithRoom, Decide,
      MeasurementEnabled, Identifier, MakeKey, SameVehicle, AfterBegin, AfterReconnect, AfterCommand, OwnsLifecycle,
      ValidCapabilities, CatalogAgrees, HandleControl, HandleReset;
    match event
    case HelloMessage(hello, _) =>
      NegotiationIsShort(config, s.mapChecksum, hello, generation);
    case ControlMessage(command, other, at) =>
      HandlersKeepHellos(config, s, event);
      ControlResults(config, s, command, other, at);
    case ResetMessage(reset, other, moving) =>
      HandlersKeepHellos(config, s, event);
      ResetResults(config, s, reset, other, moving);
    case MeasurementMessage(_, _, _) =>
  }

  /** The higher sequence, or the same one with the same frame. */
  ghost predicate MarkRises(before: HelloConnectionState, after: HelloConnectionState) {
    before.highestSequence < after.highestSequence
    || (before.highestSequence == after.highestSequence && before.lastKind == after.lastKind
        && before.lastFingerprint == after.lastFingerprint)
  }

  /** A step never lowers a surviving connection's mark, and keeps the recorded frame unless the mark rises. */
  lemma {:induction false} MarksOnlyRise(config: HostConfig, s: HostState, event: HostEvent, generation: nat)
    requires generation in s.hellos && generation in Step(config, s, event).hellos
    ensures MarkRises(s.hellos[generation], Step(config, s, event).hellos[generation])
  {
    hide HandleControl, HandleReset, NegotiationFingerprint, HelloFingerprint, ControlFingerprint, ResetFingerprint,
      MeasurementEnabled, HelloIsValid, AfterHardDeadline, AfterSoftDeadline, HandleHello, AfterMeasurement;
    match event
    case HelloMessage(hello, other) =>
      HelloRaisesMark(config, s, hello, other, generation);
    case ControlMessage(command, other, at) =>
      HandlersKeepHellos(config, s, event);
    case ResetMessage(reset, other, moving) =>
      HandlersKeepHellos(config, s, event);
    case MeasurementMessage(measurement, other, admitted) =>
      MeasurementRaisesMark(config, s, measurement, other, admitted, generation);
    case Tick(_, _) =>
  }

  lemma {:induction false} HelloRaisesMark(
    config: HostConfig, s: HostState, hello: ParsedHello, other: nat, generation: nat)
    requires var next := HandleHello(config, s, hello, other).state;
      generation in s.hellos && generation in next.hellos
    ensures MarkRises(s.hellos[generation], HandleHello(config, s, hello, other).state.hellos[generation])
  {
    hide NegotiationFingerprint, HelloFingerprint, HelloIsValid;
  }

  lemma {:induction false} MeasurementRaisesMark(
    config: HostConfig, s: HostState, measurement: Measurement, other: nat, admitted: bool, generation: nat)
    requires var next := AfterMeasurement(config, s, measurement, other, admitted).state;
      generation in s.hellos && generation in next.hellos
    ensures MarkRises(s.hellos[generation],
      AfterMeasurement(config, s, measurement, other, admitted).state.hellos[generation])
  {
    hide MeasurementEnabled;
  }

  lemma {:induction false} HandlersKeepHellos(config: HostConfig, s: HostState, event: HostEvent)
    ensures event.ControlMessage? ==>
      HandleControl(config, s, event.command, event.at, event.generation).state.hellos == s.hellos
    ensures event.ResetMessage? ==>
      HandleReset(config, s, event.reset, event.generation, event.moving).state.hellos == s.hellos
  {
    hide ResetIsValid, Decide, Identifier, MakeKey, SameVehicle, AfterBegin, AfterReconnect, AfterCommand,
      OwnsLifecycle;
  }

  lemma {:induction false} RememberedWhileConnected(
    config: HostConfig, s: HostState, events: seq<HostEvent>, i: nat, k: nat, generation: nat,
    sequence: UInt64, kind: ClientPayloadKind, fingerprint: string)
    requires i <= k <= |events|
    requires forall m :: i <= m <= k ==> generation in Run(config, s, events, m).hellos
    requires Remembers(Run(config, s, events, i), generation, sequence, kind, fingerprint)
    ensures Remembers(Run(config, s, events, k), generation, sequence, kind, fingerprint)
  {
    hide Step, Run;
    if i < k {
      RememberedWhileConnected(config, s, events, i, k - 1, generation, sequence, kind, fingerprint);
      RunStep(config, s, events, k);
      MarksOnlyRise(config, Run(config, s, events, k - 1), events[k - 1], generation);
    }
  }

  /**
   * While a connection's Hello state lives, accepted sequences never decrease, and an equal sequence means the same
   * payload.
   */
  lemma {:induction false} AcceptedFramesAreIdempotent(
    config: HostConfig, s: HostState, events: seq<HostEvent>, i: nat, j: nat, generation: nat)
    requires i < j < |events| && !events[i].Tick? && !events[j].Tick?
    requires forall m :: i < m <= j + 1 ==> generation in Run(config, s, events, m).hellos
    requires AcceptedFrame(config, Run(config, s, events, i), events[i], generation)
    requires AcceptedFrame(config, Run(config, s, events, j), events[j], generation)
    ensures SequenceOf(events[i]) <= SequenceOf(events[j])
    ensures SequenceOf(events[i]) == SequenceOf(events[j]) ==> SamePayload(events[i], events[j])
  {
    hide Step, Run, AcceptedFrame, FingerprintOf, SamePayload, Remembers, SequenceOf, KindOf, Short;
    RunStep(config, s, events, i + 1);
    RunStep(config, s, events, j + 1);
    var first, second := events[i], events[j];
    AcceptedFrameIsRecorded(config, Run(config, s, events, i), first, generation);
    AcceptedFrameIsRecorded(config, Run(config, s, events, j), second, generation);
    RememberedWhileConnected(config, s, events, i + 1, j, generation, SequenceOf(first), KindOf(first),
      FingerprintOf(first));
    MemoryOrders(Run(config, s, events, j), generation, first, second);
    if SequenceOf(first) == SequenceOf(second) {
      AcceptedTick(config, Run(config, s, events, i), first, generation);
      EqualFingerprints(first, second);
    }
  }

  lemma {:induction false} MemoryOrders(s: HostState, generation: nat, first: HostEvent, second: HostEvent)
    requires !first.Tick? && !second.Tick? && Short(first) && Short(second)
    requires Remembers(s, generation, SequenceOf(first), KindOf(first), FingerprintOf(first))
    requires generation in s.hellos && s.hellos[generation].highestSequence <= SequenceOf(second)
    requires s.hellos[generation].highestSequence == SequenceOf(second) ==>
      && s.hellos[generation].lastKind == KindOf(second)
      && s.hellos[generation].lastFingerprint == FingerprintOf(second)
    ensures SequenceOf(first) <= SequenceOf(second)
    ensures SequenceOf(first) == SequenceOf(second) ==>
      && s.hellos[generation].highestSequence == SequenceOf(second)
      && KindOf(first) == KindOf(second) && FingerprintOf(first) == FingerprintOf(second)
  {
    hide SequenceOf, KindOf, FingerprintOf, Short;
  }

  lemma {:induction false} AcceptedTick(config: HostConfig, s: HostState, event: HostEvent, generation: nat)
    requires AcceptedFrame(config, s, event, generation)
    ensures event.MeasurementMessage? ==> IsMeasurement(event.measurement.kind)
  {
    hide ConnectionAdmits, HelloIsValid, Identifier, Recorded;
  }

  /** The same message, up to the sign of zero and the order of capabilities. */
  ghost predicate SamePayload(first: HostEvent, second: HostEvent) {
    match (first, second)
    case (HelloMessage(a, _), HelloMessage(b, _)) =>
      && a.sourceId == b.sourceId && a.sessionId == b.sessionId && a.build == b.build && a.schema == b.schema
      && a.mapChecksum == b.mapChecksum && multiset(a.capabilities) == multiset(b.capabilities)
    case (ControlMessage(a, _, _), ControlMessage(b, _, _)) => CanonicalControl(a) == CanonicalControl(b)
    case (ResetMessage(a, _, _), ResetMessage(b, _, _)) => a.(sequence := 0) == b.(sequence := 0)
    case _ => false
  }

  lemma {:induction false} EqualFingerprints(first: HostEvent, second: HostEvent)
    requires !first.Tick? && !second.Tick? && !second.MeasurementMessage? && Short(first) && Short(second)
    requires first.MeasurementMessage? ==> IsMeasurement(first.measurement.kind)
    requires KindOf(first) == KindOf(second) && FingerprintOf(first) == FingerprintOf(second)
    ensures SamePayload(first, second)
  {
    hide ControlFingerprint, ResetFingerprint, HelloFingerprint, NegotiationFingerprint;
    match (first, second)
    case (HelloMessage(a, _), HelloMessage(b, _)) =>
      HelloFingerprintIsInjective(a, b);
      NegotiationFingerprintIsInjective(a, b);
    case (ControlMessage(a, _, _), ControlMessage(b, _, _)) => ControlFingerprintIsInjective(a, b);
    case (ResetMessage(a, _, _), ResetMessage(b, _, _)) => ResetFingerprintIsInjective(a, b);
    case _ =>
  }
}
