/**
 * What a retired session still gets from the host, exactly: nothing that moves the vehicle or rebinds the lifecycle.
 */
module HostFencing {
  import opened Options
  import opened ControlLease
  import opened Fingerprint
  import opened HostProtocol
  import opened HostSafety

  function KeyOf(event: HostEvent): string
    requires !event.Tick?
  {
    match event
    case HelloMessage(hello, _) => MakeKey(hello.sourceId, hello.sessionId)
    case ControlMessage(command, _, _) => MakeKey(command.sourceId, command.sessionId)
    case ResetMessage(reset, _, _) => MakeKey(reset.sourceId, reset.sessionId)
    case MeasurementMessage(measurement, _, _) => MakeKey(measurement.sourceId, measurement.sessionId)
  }

  // ---- Resets ----

  /** The owning connection repeats the reset that bound it, for the same play and vehicle and in order. */
  predicate RepeatsOwnReset(s: HostState, reset: ParsedSimulationReset, generation: nat) {
    && s.lifecycleActive && generation != 0 && generation == s.generation
    && reset.sourceId == s.controllerSource && reset.sessionId == s.connectionSession && reset.playSessionId == s.playId
    && SameVehicle(s, reset) && reset.sequence >= s.lifecycleSequence && reset.clientTime >= s.lifecycleClientTime
  }

  /** The ordering marks follow a repeated reset with a higher sequence; nothing else changes. */
  function MarksMoved(s: HostState, reset: ParsedSimulationReset): HostState {
    if reset.sequence == s.lifecycleSequence then s
    else s.(lifecycleSequence := reset.sequence, lifecycleClientTime := reset.clientTime)
  }

  /** A retired session's reset is answered exactly when it repeats its own, and only as a duplicate. */
  lemma {:induction false} RetiredResetIsExact(
    config: HostConfig, s: HostState, reset: ParsedSimulationReset, generation: nat, moving: bool)
    requires HostInvariant(config, s) && MakeKey(reset.sourceId, reset.sessionId) in s.lease.retired
    ensures HandleReset(config, s, reset, generation, moving)
         == if ResetIsValid(config, s, reset, generation, moving) && RepeatsOwnReset(s, reset, generation)
            then Outcome(MarksMoved(s, reset), DuplicateSimulationReset)
            else Outcome(s, Rejected)
  {
    hide HostInvariant, ResetIsValid, MakeKey, SameVehicle;
  }

  // ---- Every message of a retired session ----

  predicate StopsInEmergency(s: HostState, command: ParsedControlCommand) {
    && command.estop && Name(command.mapChecksum) && command.mapChecksum == s.mapChecksum
    && Identifier(command.sourceId, MAXIMUM_IDENTIFIER_BYTES, true)
    && Identifier(command.sessionId, MAXIMUM_IDENTIFIER_BYTES, true)
  }

  predicate AdmittedControl(config: HostConfig, s: HostState, command: ParsedControlCommand, generation: nat) {
    ConnectionAdmits(config, s, generation, ControlPayload, command.sourceId, command.sessionId, command.sequence,
      ControlFingerprint(command), command.estop)
  }

  predicate AdmittedReset(config: HostConfig, s: HostState, reset: ParsedSimulationReset, generation: nat) {
    ConnectionAdmits(config, s, generation, ResetPayload, reset.sourceId, reset.sessionId, reset.sequence,
      ResetFingerprint(reset), false)
  }

  /** The messages of a retired session that are not rejected, apart from its Hellos, which carry no authority. */
  predicate StillAnswered(config: HostConfig, s: HostState, event: HostEvent) {
    match event
    case ControlMessage(command, generation, _) =>
      AdmittedControl(config, s, command, generation) && StopsInEmergency(s, command)
    case ResetMessage(reset, generation, moving) =>
      && AdmittedReset(config, s, reset, generation)
      && ResetIsValid(config, s, reset, generation, moving) && RepeatsOwnReset(s, reset, generation)
    case _ => false
  }

  /** All that an answered message does, but for the connection's record of the frame. */
  function AnsweredEffect(s: HostState, event: HostEvent): HostState {
    match event
    case ControlMessage(_, _, _) => s.(estopLatched := true, applied := SAFE_STOP)
    case ResetMessage(reset, _, _) => MarksMoved(s, reset)
    case _ => s
  }

  ghost predicate OnlyHellosDiffer(s: HostState, next: HostState) {
    next == s.(hellos := next.hellos)
  }

  lemma {:induction false} RetiredControl(
    config: HostConfig, s: HostState, command: ParsedControlCommand, generation: nat, at: Instant)
    requires HostInvariant(config, s) && MakeKey(command.sourceId, command.sessionId) in s.lease.retired
    ensures HandleControl(config, s, command, at, generation)
         == if StopsInEmergency(s, command)
           then Outcome(s.(estopLatched := true, applied := SAFE_STOP), EmergencyStopLatched)
            else Outcome(s, Rejected)
  {
    hide Identifier, MakeKey, BoundLifecycle, UnboundLifecycle;
  }

  lemma {:induction false} RetiredMeasurement(
    config: HostConfig, s: HostState, m: Measurement, generation: nat, admitted: bool)
    requires HostInvariant(config, s) && MakeKey(m.sourceId, m.sessionId) in s.lease.retired
    ensures AfterMeasurement(config, s, m, generation, admitted) == Outcome(s, Rejected)
  {
    hide MakeKey, LeaseInvariant, Name, Recorded;
  }

  /** A Hello binds no lifecycle and no lease, whoever sends it. */
  lemma {:induction false} HelloHasNoAuthority(config: HostConfig, s: HostState, hello: ParsedHello, generation: nat)
    ensures OnlyHellosDiffer(s, HandleHello(config, s, hello, generation).state)
  {
    hide HelloIsValid, NegotiationFingerprint, HelloFingerprint, WithRoom, Recorded;
  }

  /** Exactly which messages of a retired session are answered, with what result, and all that they change. */
  lemma {:induction false} RetiredIsExact(config: HostConfig, s: HostState, event: HostEvent)
    requires HostInvariant(config, s) && !event.Tick? && KeyOf(event) in s.lease.retired
    ensures !event.HelloMessage? ==> (Reply(config, s, event).result != Rejected <==> StillAnswered(config, s, event))
    ensures Grants(config, s, event, EmergencyStopLatched) <==> event.ControlMessage? && StillAnswered(config, s, event)
    ensures Grants(config, s, event, DuplicateSimulationReset)
      <==> event.ResetMessage? && StillAnswered(config, s, event)
    ensures var effect := if StillAnswered(config, s, event) then AnsweredEffect(s, event) else s;
      OnlyHellosDiffer(effect, Step(config, s, event))
  {
    hide HostInvariant, HandleHello, HandleControl, HandleReset, AfterMeasurement, ResetIsValid, RepeatsOwnReset,
      StopsInEmergency, MarksMoved, ConnectionAdmits, Committed, MakeKey, ControlFingerprint, ResetFingerprint;
    match event
    case HelloMessage(hello, generation) =>
      HelloHasNoAuthority(config, s, hello, generation);
      HelloResults(config, s, hello, generation);
    case ControlMessage(command, generation, at) =>
      RetiredControl(config, s, command, generation, at);
      CommitKeepsResult(HandleControl(config, s, command, at, generation), generation, ControlPayload,
        command.sequence, ControlFingerprint(command));
    case ResetMessage(reset, generation, moving) =>
      RetiredResetIsExact(config, s, reset, generation, moving);
      CommitKeepsResult(HandleReset(config, s, reset, generation, moving), generation, ResetPayload,
        reset.sequence, ResetFingerprint(reset));
    case MeasurementMessage(measurement, generation, admitted) =>
      RetiredMeasurement(config, s, measurement, generation, admitted);
  }

  lemma {:induction false} HelloResults(config: HostConfig, s: HostState, hello: ParsedHello, generation: nat)
    ensures var result := HandleHello(config, s, hello, generation).result;
      result == Rejected || result == HelloAccepted || result == DuplicateHello
  {
    hide HelloIsValid, NegotiationFingerprint, HelloFingerprint, WithRoom, Recorded;
  }

  /**
   * Fencing over a whole run: a session retired at any moment owns nothing from then on. Its Hellos apart, it is
   * answered only for an emergency stop or for repeating its own reset, and neither touches lease, lifecycle binding or
   * plays.
   */
  lemma {:induction false} RetiredForeverAtTheHost(
    config: HostConfig, s: HostState, events: seq<HostEvent>, i: nat, k: nat)
    requires HostInvariant(config, s) && i <= k < |events| && !events[k].Tick?
    requires KeyOf(events[k]) in Run(config, s, events, i).lease.retired
    ensures Run(config, s, events, k).lease.activeKey != KeyOf(events[k])
    ensures var before, event := Run(config, s, events, k), events[k];
      var answered := StillAnswered(config, before, event);
      && (!event.HelloMessage? ==> (Reply(config, before, event).result != Rejected <==> answered))
      && (Grants(config, before, event, EmergencyStopLatched) <==> event.ControlMessage? && answered)
      && (Grants(config, before, event, DuplicateSimulationReset) <==> event.ResetMessage? && answered)
      && OnlyHellosDiffer(if answered then AnsweredEffect(before, event) else before, Run(config, s, events, k + 1))
  {
    hide HostInvariant, Step, Run, KeyOf, Grants, StillAnswered, AnsweredEffect, Reply;
    FencesOnlyGrow(config, s, events, i, k);
    RunKeepsInvariant(config, s, events, k);
    InvariantGivesLease(config, Run(config, s, events, k));
    RetiredIsExact(config, Run(config, s, events, k), events[k]);
    RunStep(config, s, events, k + 1);
  }

  // ---- The duplicate reply is reachable ----

  const OPEN_CONFIG := HostConfig(Timeouts(10, 20, 5), false, false, false, false, false, false, "", (_, _) => true)

  const FIRST_RESET := ParsedSimulationReset(1, 1, "s", "c", "m", "p", Sedan, "")

  const FIRST_CONTROL := ParsedControlCommand(SAFE_STOP, 1, 1, "s", "c", "m", false)

  /** A start, one command, silence past the hard timeout, and the start again with a higher sequence. */
  const SILENT_RUN: seq<HostEvent> := [
    ResetMessage(FIRST_RESET, 1, false), ControlMessage(FIRST_CONTROL, 1, 0), Tick(100, None),
    ResetMessage(FIRST_RESET.(sequence := 2, clientTime := 2), 1, false)]

  lemma {:induction false} ShortNames()
    ensures Name("s") && Name("c") && Name("m") && Name("p")
    ensures Identifier("s", MAXIMUM_IDENTIFIER_BYTES, true) && Identifier("c", MAXIMUM_IDENTIFIER_BYTES, true)
  {
    assert "s"[0] as int == 115 && "c"[0] as int == 99 && "m"[0] as int == 109 && "p"[0] as int == 112;
  }

  const SESSION := MakeKey("s", "c")

  /** The run's states: bound to the connection, driven by its command, and silent past both deadlines. */
  const BOUND := HostState(
    "m", Unowned(SESSION, {}), false, SAFE_STOP, true, "s", "c", 1, MakeKey("s", "p"), "p", 1, 1, Sedan, "",
    map[], {MakeKey("s", "p")})
  const DRIVEN := BOUND.(lease := LeaseState(SESSION, SESSION, "s", "c", {}, 1, 1, 0, 0, false))
  const SILENT := BOUND.(lease := LeaseState("", SESSION, "s", "c", {SESSION}, 1, 1, 0, 0, true))

  lemma {:induction false} ResetBinds()
    ensures Step(OPEN_CONFIG, InitialHost("m"), SILENT_RUN[0]) == BOUND
  {
    hide ResetFingerprint, Identifier, MakeKey;
    ShortNames();
    var start := InitialHost("m");
    assert ResetIsValid(OPEN_CONFIG, start, FIRST_RESET, 1, false);
    assert AfterBegin(start.lease, "s", "c") == Unowned(SESSION, {});
    assert WithPlay({}, MakeKey("s", "p")) == {MakeKey("s", "p")};
    assert HandleReset(OPEN_CONFIG, start, FIRST_RESET, 1, false) == FreshReset(start, FIRST_RESET, 1);
  }

  lemma {:induction false} CommandDrives()
    ensures Step(OPEN_CONFIG, BOUND, SILENT_RUN[1]) == DRIVEN
  {
    hide ControlFingerprint, Identifier, MakeKey;
    ShortNames();
    assert HandleControl(OPEN_CONFIG, BOUND, FIRST_CONTROL, 0, 1) == Outcome(DRIVEN, ControlAccepted);
  }

  lemma {:induction false} SilenceRetires()
    ensures Step(OPEN_CONFIG, DRIVEN, SILENT_RUN[2]) == SILENT
  {
    hide MakeKey;
    assert {} + {SESSION} == {SESSION};
  }

  lemma {:induction false} RepeatIsAnswered()
    ensures Grants(OPEN_CONFIG, SILENT, SILENT_RUN[3], DuplicateSimulationReset)
    ensures Step(OPEN_CONFIG, SILENT, SILENT_RUN[3]) == SILENT.(lifecycleSequence := 2, lifecycleClientTime := 2)
  {
    hide ResetFingerprint, Identifier, MakeKey;
    ShortNames();
    var reset := FIRST_RESET.(sequence := 2, clientTime := 2);
    assert ResetIsValid(OPEN_CONFIG, SILENT, reset, 1, false);
    assert HandleReset(OPEN_CONFIG, SILENT, reset, 1, false) == SameConnectionReset(SILENT, reset);
  }

  /** The session that the hard timeout retires is still told that its repeated reset is a duplicate. */
  lemma {:induction false} RetiredSessionGetsDuplicateReply()
    ensures var silent := Run(OPEN_CONFIG, InitialHost("m"), SILENT_RUN, 3);
      && KeyOf(SILENT_RUN[3]) in silent.lease.retired
      && Grants(OPEN_CONFIG, silent, SILENT_RUN[3], DuplicateSimulationReset)
      && Run(OPEN_CONFIG, InitialHost("m"), SILENT_RUN, 4).lifecycleSequence == 2
  {
    hide Run, Step, Grants;
    var start := InitialHost("m");
    RunStart(OPEN_CONFIG, start, SILENT_RUN);
    RunStep(OPEN_CONFIG, start, SILENT_RUN, 1);
    RunStep(OPEN_CONFIG, start, SILENT_RUN, 2);
    RunStep(OPEN_CONFIG, start, SILENT_RUN, 3);
    RunStep(OPEN_CONFIG, start, SILENT_RUN, 4);
    ResetBinds();
    CommandDrives();
    SilenceRetires();
    RepeatIsAnswered();
  }
}
