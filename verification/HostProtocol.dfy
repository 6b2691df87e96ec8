/** Who may move the vehicle: every client message and tick as one step of a state machine. */
module HostProtocol {
  import opened Options
  import opened ControlLease
  import opened Fingerprint

  const MAXIMUM_PLAY_SESSIONS: nat := 4096
  const MAXIMUM_HELLO_CONNECTIONS: nat := 4096
  const MAXIMUM_IDENTIFIER_BYTES: nat := 256
  const PROTOCOL_SCHEMA: Text := "simcore-envelope-v2"
  const REQUIRED_CAPABILITIES: seq<Text> :=
    ["world-state.v2", "control.v2", "simulation-reset.v1", "map-package-checksum.v1"]

  /** The single-precision bits of 1.0. */
  const FULL: Float32 := 0x3F80_0000
  const SAFE_STOP := VehicleInput(0, FULL, 0, true, Drive)

  datatype ClientPayloadKind =
    | HelloPayload | ControlPayload | ResetPayload | GroundQueryPayload | WorldRevisionPayload | ObstaclePayload

  datatype ClientMessageResult =
    | HelloAccepted | DuplicateHello | ControlAccepted | Rejected | EmergencyStopLatched | SimulationReset
    | DuplicateSimulationReset | MeasurementAccepted

  datatype HealthStatus = AwaitingReset | AwaitingControl | Active | SafeStopped | ReconnectRequired | EstopLatched

  /** Startup options; which vehicle selections the catalog resolves is given from outside. */
  datatype HostConfig = HostConfig(
    timeouts: LeaseTimeouts, requireClientHello: bool, liveGround: bool, liveNpcGround: bool, liveObstacles: bool,
    groundQueryShadow: bool, requireVehicleCatalogIdentity: bool, catalogCapability: Text,
    loadoutResolves: (RuntimeVehicleClass, Text) -> bool)

  datatype HelloConnectionState = HelloConnectionState(
    sourceId: Text, sessionId: Text, negotiated: string, highestSequence: UInt64,
    lastKind: ClientPayloadKind, lastFingerprint: string,
    supportsLoadout: bool, supportsParts: bool, supportsGroundShadow: bool, supportsGroundCapture: bool,
    supportsLiveGround: bool)

  datatype HostState = HostState(
    mapChecksum: Text, lease: LeaseState, estopLatched: bool, applied: VehicleInput, lifecycleActive: bool,
    controllerSource: string, connectionSession: string, generation: nat, playKey: string, playId: string,
    lifecycleSequence: UInt64, lifecycleClientTime: UInt64, vehicleClass: RuntimeVehicleClass, loadoutId: string,
    hellos: map<nat, HelloConnectionState>, seenPlays: set<string>)

  function InitialHost(mapChecksum: Text): HostState {
    HostState(mapChecksum, INITIAL_LEASE, false, SAFE_STOP, false, "", "", 0, "", "", 0, 0, Sedan, "", map[], {})
  }

  datatype Outcome = Outcome(state: HostState, result: ClientMessageResult)

  predicate Identifier(value: string, maximumBytes: nat, allowEmpty: bool) {
    && (allowEmpty || value != "") && |value| <= maximumBytes
    && forall i :: 0 <= i < |value| ==> 0x20 <= value[i] as int <= 0x7e
  }

  predicate Name(value: string) {
    Identifier(value, MAXIMUM_IDENTIFIER_BYTES, false)
  }

  predicate StartsWith(value: string, prefix: string) {
    prefix <= value
  }

  // ---- handle_hello ----

  predicate ValidCapabilities(capabilities: seq<Text>) {
    && (forall i :: 0 <= i < |capabilities| ==> Identifier(capabilities[i], 128, false))
    && (forall i, j :: 0 <= i < j < |capabilities| ==> capabilities[i] != capabilities[j])
  }

  function CatalogCount(capabilities: seq<Text>): nat {
    if capabilities == [] then 0
    else (if StartsWith(capabilities[0], "vehicle-catalog-") then 1 else 0) + CatalogCount(capabilities[1..])
  }

  predicate CatalogAgrees(config: HostConfig, capabilities: seq<Text>) {
    var supportsParts := "vehicle-parts.v1" in capabilities;
    config.requireVehicleCatalogIdentity || supportsParts ==>
      && config.catalogCapability in capabilities
      && (supportsParts ==> CatalogCount(capabilities) == 1 && "vehicle-loadout.v1" in capabilities)
  }

  predicate HelloIsValid(config: HostConfig, mapChecksum: Text, hello: ParsedHello, generation: nat) {
    && generation != 0 && hello.sequence != 0 && Name(hello.sourceId) && Name(hello.sessionId)
    && Identifier(hello.build, 128, false) && Name(hello.mapChecksum) && hello.mapChecksum == mapChecksum
    && hello.schema == PROTOCOL_SCHEMA && 0 < |hello.capabilities| <= 32 && ValidCapabilities(hello.capabilities)
    && (forall i :: 0 <= i < |REQUIRED_CAPABILITIES| ==> REQUIRED_CAPABILITIES[i] in hello.capabilities)
    && (config.liveGround ==> "ground-patch.v3" in hello.capabilities)
    && (config.liveNpcGround ==> "npc-ground.v1" in hello.capabilities)
    && (config.liveObstacles ==> "world-obstacles.v1" in hello.capabilities)
    && CatalogAgrees(config, hello.capabilities)
  }

  lemma {:induction false} EncodedLength(values: seq<Text>)
    requires forall i :: 0 <= i < |values| ==> |values[i]| <= 128
    ensures |Concatenated(EncodedStrings(values))| <= 136 * |values|
  {
    hide Concatenated, LittleEndian;
    var parts := EncodedStrings(values);
    NothingLeft(parts);
    if values != [] {
      EncodedLength(values[1..]);
      Unfold(parts, 0);
      assert parts[1..] == EncodedStrings(values[1..]);
    }
  }

  lemma {:induction false} SortedElement(values: seq<Text>, value: Text)
    requires value in Sorted(values)
    ensures value in values
  {
    assert value in multiset(Sorted(values));
    assert value in multiset(values);
  }

  /** A valid Hello negotiates something short enough to be length-prefixed in turn. */
  lemma {:induction false} NegotiationIsShort(
    config: HostConfig, mapChecksum: Text, hello: ParsedHello, generation: nat)
    requires HelloIsValid(config, mapChecksum, hello, generation)
    ensures |NegotiationFingerprint(hello)| < 10000
  {
    hide LittleEndian, Concatenated, Sorted, CatalogAgrees;
    var sorted := Sorted(hello.capabilities);
    forall i | 0 <= i < |sorted|
      ensures |sorted[i]| <= 128
    {
      SortedElement(hello.capabilities, sorted[i]);
    }
    EncodedLength(sorted);
    var parts := HelloParts(hello);
    NothingLeft(parts);
    Unfold(parts, 0);
    Unfold(parts, 1);
    Unfold(parts, 2);
    Unfold(parts, 3);
    Unfold(parts, 4);
  }

  lemma {:induction false} LeastExists(keys: set<nat>, k: nat)
    requires k in keys
    ensures exists least :: least in keys && forall j :: j in keys ==> least <= j
  {
    if smaller :| smaller in keys && smaller < k {
      LeastExists(keys, smaller);
    }
  }

  ghost function Oldest(keys: set<nat>): (oldest: nat)
    requires keys != {}
    ensures oldest in keys && forall j :: j in keys ==> oldest <= j
  {
    var any :| any in keys;
    LeastExists(keys, any);
    var k :| k in keys && forall j :: j in keys ==> k <= j;
    k
  }

  /** At the limit the state of the oldest connection makes room. */
  ghost function WithRoom(hellos: map<nat, HelloConnectionState>): map<nat, HelloConnectionState> {
    if |hellos| < MAXIMUM_HELLO_CONNECTIONS then hellos else hellos - {Oldest(hellos.Keys)}
  }

  ghost function HandleHello(config: HostConfig, s: HostState, hello: ParsedHello, generation: nat): Outcome {
    if !HelloIsValid(config, s.mapChecksum, hello, generation) then Outcome(s, Rejected)
    else
      NegotiationIsShort(config, s.mapChecksum, hello, generation);
      var negotiated, fingerprint := NegotiationFingerprint(hello), HelloFingerprint(hello);
      if generation in s.hellos then
        var known := s.hellos[generation];
        if hello.sourceId != known.sourceId || hello.sessionId != known.sessionId || negotiated != known.negotiated
           || hello.sequence < known.highestSequence
        then Outcome(s, Rejected)
        else if hello.sequence == known.highestSequence
                && (known.lastKind != HelloPayload || fingerprint != known.lastFingerprint)
        then Outcome(s, Rejected)
        else Outcome(s.(hellos := Recorded(s.hellos, generation, HelloPayload, hello.sequence, fingerprint)),
          DuplicateHello)
      else
        var initial := HelloConnectionState(
          hello.sourceId, hello.sessionId, negotiated, hello.sequence, HelloPayload, fingerprint,
          "vehicle-loadout.v1" in hello.capabilities, "vehicle-parts.v1" in hello.capabilities,
          "ground-query-shadow.v1" in hello.capabilities, "ground-query-shadow.v2" in hello.capabilities,
          "ground-patch.v3" in hello.capabilities);
        Outcome(s.(hellos := WithRoom(s.hellos)[generation := initial]), HelloAccepted)
  }

  function Recorded(
    hellos: map<nat, HelloConnectionState>, generation: nat, kind: ClientPayloadKind, sequence: UInt64,
    fingerprint: string)
    : map<nat, HelloConnectionState>
    requires generation in hellos
  {
    hellos[generation :=
      hellos[generation].(highestSequence := sequence, lastKind := kind, lastFingerprint := fingerprint)]
  }

  // ---- handle_client_message: what a connection may send ----

  /** Before the Hello only an emergency stop; after it only the connection's own identity, in order, without reuse. */
  predicate ConnectionAdmits(
    config: HostConfig, s: HostState, generation: nat, kind: ClientPayloadKind, sourceId: string, sessionId: string,
    sequence: UInt64, fingerprint: string, emergency: bool)
  {
    && (config.requireClientHello && (generation == 0 || generation !in s.hellos) ==> emergency)
    && (generation in s.hellos ==>
          var known := s.hellos[generation];
          && sourceId == known.sourceId && sessionId == known.sessionId && sequence >= known.highestSequence
          && (sequence == known.highestSequence ==> kind == known.lastKind && fingerprint == known.lastFingerprint))
  }

  predicate AdvancesSequence(result: ClientMessageResult) {
    result == ControlAccepted || result == EmergencyStopLatched || result == SimulationReset
      || result == DuplicateSimulationReset
  }

  function Committed(
    outcome: Outcome, generation: nat, kind: ClientPayloadKind, sequence: UInt64, fingerprint: string): Outcome {
    if generation in outcome.state.hellos && AdvancesSequence(outcome.result)
    then outcome.(state :=
      outcome.state.(hellos := Recorded(outcome.state.hellos, generation, kind, sequence, fingerprint)))
    else outcome
  }

  // ---- handle_control_command ----

  function Stamp(command: ParsedControlCommand): ControlCommandStamp {
    ControlCommandStamp(command.sourceId, command.sessionId, command.sequence, command.clientTime)
  }

  predicate OwnsLifecycle(s: HostState, command: ParsedControlCommand, generation: nat) {
    && s.lifecycleActive && command.sourceId == s.controllerSource && command.sessionId == s.connectionSession
    && (s.generation != 0 ==> generation == s.generation)
  }

  function HandleControl(
    config: HostConfig, s: HostState, command: ParsedControlCommand, receivedAt: Instant, generation: nat)
    : Outcome
  {
    if !Identifier(command.sourceId, MAXIMUM_IDENTIFIER_BYTES, true)
       || !Identifier(command.sessionId, MAXIMUM_IDENTIFIER_BYTES, true)
       || !Name(command.mapChecksum) || command.mapChecksum != s.mapChecksum
    then Outcome(s, Rejected)
    else if command.estop then Outcome(s.(estopLatched := true, applied := SAFE_STOP), EmergencyStopLatched)
    else if !OwnsLifecycle(s, command, generation) || s.estopLatched
            || Decide(config.timeouts, s.lease, Stamp(command), receivedAt) != Accepted
    then Outcome(s, Rejected)
    else Outcome(
      s.(lease := AfterCommand(config.timeouts, s.lease, Stamp(command), receivedAt), applied := command.input),
      ControlAccepted)
  }

  function AfterControl(
    config: HostConfig, s: HostState, command: ParsedControlCommand, generation: nat, receivedAt: Instant)
    : Outcome
  {
    var fingerprint := ControlFingerprint(command);
    if !ConnectionAdmits(config, s, generation, ControlPayload, command.sourceId, command.sessionId, command.sequence,
         fingerprint, command.estop)
    then Outcome(s, Rejected)
    else Committed(HandleControl(config, s, command, receivedAt, generation), generation, ControlPayload,
           command.sequence, fingerprint)
  }

  // ---- handle_simulation_reset ----

  function RequestedClass(reset: ParsedSimulationReset): RuntimeVehicleClass {
    if reset.requestedClass == Unspecified then Sedan else reset.requestedClass
  }

  predicate SameVehicle(s: HostState, reset: ParsedSimulationReset) {
    RequestedClass(reset) == s.vehicleClass && reset.requestedLoadoutId == s.loadoutId
  }

  predicate LoadoutNegotiated(config: HostConfig, s: HostState, reset: ParsedSimulationReset, generation: nat) {
    var custom := StartsWith(reset.requestedLoadoutId, "parts_v1_");
    (reset.requestedLoadoutId != "" && config.requireClientHello) || custom ==>
      generation in s.hellos && s.hellos[generation].supportsLoadout && (custom ==> s.hellos[generation].supportsParts)
  }

  predicate ResetIsValid(
    config: HostConfig, s: HostState, reset: ParsedSimulationReset, generation: nat, moving: bool) {
    && Name(reset.sourceId) && Name(reset.sessionId) && Name(reset.playSessionId) && Name(reset.mapChecksum)
    && reset.mapChecksum == s.mapChecksum && reset.sequence != 0 && reset.clientTime != 0 && !s.estopLatched
    && config.loadoutResolves(RequestedClass(reset), reset.requestedLoadoutId)
    && LoadoutNegotiated(config, s, reset, generation)
    && !(s.lifecycleActive && reset.requestedLoadoutId != s.loadoutId
         && (RequestedClass(reset) == s.vehicleClass || reset.requestedLoadoutId != "") && moving)
  }

  /** A repeated reset on the owning connection only moves its ordering marks. */
  function SameConnectionReset(s: HostState, reset: ParsedSimulationReset): Outcome {
    if reset.sourceId != s.controllerSource || reset.sessionId != s.connectionSession || reset.playSessionId != s.playId
       || !SameVehicle(s, reset) || reset.sequence < s.lifecycleSequence || reset.clientTime < s.lifecycleClientTime
    then Outcome(s, Rejected)
    else if reset.sequence == s.lifecycleSequence then Outcome(s, DuplicateSimulationReset)
    else Outcome(s.(lifecycleSequence := reset.sequence, lifecycleClientTime := reset.clientTime),
      DuplicateSimulationReset)
  }

  function Bound(s: HostState, reset: ParsedSimulationReset, generation: nat): HostState {
    s.(lifecycleActive := true, controllerSource := reset.sourceId, connectionSession := reset.sessionId,
       generation := generation, playId := reset.playSessionId,
       lifecycleSequence := reset.sequence, lifecycleClientTime := reset.clientTime)
  }

  function ReconnectReset(s: HostState, reset: ParsedSimulationReset, generation: nat): Outcome {
    var decision := DecideReconnect(s.lease, reset.sourceId, reset.sessionId);
    if MakeKey(reset.sourceId, reset.playSessionId) != s.playKey || !SameVehicle(s, reset)
      || decision == RetiredConnection
    then Outcome(s, Rejected)
    else Outcome(
      Bound(s, reset, generation).(
        lease := AfterReconnect(s.lease, reset.sourceId, reset.sessionId),
        applied := if decision == Ready then SAFE_STOP else s.applied),
      DuplicateSimulationReset)
  }

  function WithPlay(plays: set<string>, play: string): set<string> {
    plays + {play}
  }

  function FreshReset(s: HostState, reset: ParsedSimulationReset, generation: nat): Outcome {
    var playKey := MakeKey(reset.sourceId, reset.playSessionId);
    if |s.seenPlays| >= MAXIMUM_PLAY_SESSIONS || MakeKey(reset.sourceId, reset.sessionId) in s.lease.retired
    then Outcome(s, Rejected)
    else Outcome(
      Bound(s, reset, generation).(
        lease := AfterBegin(s.lease, reset.sourceId, reset.sessionId), applied := SAFE_STOP,
        vehicleClass := RequestedClass(reset), loadoutId := reset.requestedLoadoutId,
        seenPlays := WithPlay(s.seenPlays, playKey), playKey := playKey),
      SimulationReset)
  }

  function HandleReset(
    config: HostConfig, s: HostState, reset: ParsedSimulationReset, generation: nat, moving: bool): Outcome {
    var ordered := s.lifecycleActive && generation != 0 && s.generation != 0;
    if !ResetIsValid(config, s, reset, generation, moving)
      || (ordered && generation < s.generation) then Outcome(s, Rejected)
    else if ordered && generation == s.generation then SameConnectionReset(s, reset)
    else if ordered && reset.sessionId == s.connectionSession then Outcome(s, Rejected)
    else if MakeKey(reset.sourceId, reset.playSessionId) in s.seenPlays then ReconnectReset(s, reset, generation)
    else FreshReset(s, reset, generation)
  }

  function AfterReset(
    config: HostConfig, s: HostState, reset: ParsedSimulationReset, generation: nat, moving: bool): Outcome {
    var fingerprint := ResetFingerprint(reset);
    if !ConnectionAdmits(config, s, generation, ResetPayload, reset.sourceId, reset.sessionId, reset.sequence,
         fingerprint, false)
    then Outcome(s, Rejected)
    else Committed(HandleReset(config, s, reset, generation, moving), generation, ResetPayload, reset.sequence,
      fingerprint)
  }

  // ---- Measurements from the client ----

  datatype Measurement = Measurement(
    kind: ClientPayloadKind, npcTile: bool, livePatch: bool, sequence: UInt64, sourceId: string, sessionId: string,
    playSessionId: string, mapChecksum: string)

  predicate LiveGroundReady(config: HostConfig, s: HostState) {
    && config.liveGround && s.lifecycleActive && !s.estopLatched && !RequiresReconnect(s.lease)
    && s.generation in s.hellos && s.hellos[s.generation].supportsLiveGround
  }

  predicate MeasurementEnabled(config: HostConfig, s: HostState, m: Measurement) {
    match m.kind
    case GroundQueryPayload =>
      && (if m.npcTile then config.liveNpcGround else if m.livePatch then config.liveGround
        else config.groundQueryShadow)
      && s.lifecycleActive && !s.estopLatched && !RequiresReconnect(s.lease) && s.generation in s.hellos
      && (if m.livePatch then s.hellos[s.generation].supportsLiveGround
        else s.hellos[s.generation].supportsGroundShadow)
    case WorldRevisionPayload => LiveGroundReady(config, s)
    case ObstaclePayload => config.liveObstacles && LiveGroundReady(config, s)
    case _ => false
  }

  /** `admitted` is the verdict of the measurement trackers, which hold no motion authority. */
  function AfterMeasurement(
    config: HostConfig, s: HostState, m: Measurement, generation: nat, admitted: bool): Outcome {
    if !MeasurementEnabled(config, s, m) || generation != s.generation || generation !in s.hellos
       || m.sourceId != s.controllerSource || m.sourceId != s.hellos[generation].sourceId
       || m.sessionId != s.connectionSession || m.sessionId != s.hellos[generation].sessionId
       || m.playSessionId != s.playId || m.mapChecksum != s.mapChecksum
       || m.sequence <= s.hellos[generation].highestSequence || !admitted
    then Outcome(s, Rejected)
    else Outcome(s.(hellos := Recorded(s.hellos, generation, m.kind, m.sequence, "")), MeasurementAccepted)
  }

  // ---- The tick prologue ----

  function AfterMapReload(s: HostState, mapChecksum: Text): HostState {
    s.(mapChecksum := mapChecksum, applied := SAFE_STOP, lease := AfterNewSimulation(s.lease), playKey := "",
       playId := "", controllerSource := "", connectionSession := "", generation := 0, lifecycleSequence := 0,
       lifecycleClientTime := 0, lifecycleActive := false, hellos := map[])
  }

  /** A tick applies a pending map and stops there; otherwise it enforces the soft and then the hard deadline. */
  function AfterTick(config: HostConfig, s: HostState, now: Instant, pending: Option<Text>): HostState {
    if pending.Some? && pending.value != s.mapChecksum then AfterMapReload(s, pending.value)
    else
      var soft := AfterSoftDeadline(config.timeouts, s.lease, now);
      s.(lease := AfterHardDeadline(config.timeouts, soft, now),
         applied := if soft.safeStopActive && !s.lease.safeStopActive then SAFE_STOP else s.applied)
  }

  function Health(s: HostState): HealthStatus {
    if s.estopLatched then EstopLatched
    else if !s.lifecycleActive then AwaitingReset
    else if RequiresReconnect(s.lease) then ReconnectRequired
    else if !HasControlCommand(s.lease) then AwaitingControl
    else if s.lease.safeStopActive then SafeStopped
    else Active
  }

  // ---- Steps and runs ----

  datatype HostEvent =
    | HelloMessage(hello: ParsedHello, generation: nat)
    | ControlMessage(command: ParsedControlCommand, generation: nat, at: Instant)
    | ResetMessage(reset: ParsedSimulationReset, generation: nat, moving: bool)
    | MeasurementMessage(measurement: Measurement, generation: nat, admitted: bool)
    | Tick(now: Instant, pending: Option<Text>)

  /** The reply to a client message; a tick has none. */
  ghost function Reply(config: HostConfig, s: HostState, event: HostEvent): Outcome
    requires !event.Tick?
  {
    match event
    case HelloMessage(hello, generation) => HandleHello(config, s, hello, generation)
    case ControlMessage(command, generation, at) => AfterControl(config, s, command, generation, at)
    case ResetMessage(reset, generation, moving) => AfterReset(config, s, reset, generation, moving)
    case MeasurementMessage(measurement, generation, admitted) =>
      AfterMeasurement(config, s, measurement, generation, admitted)
  }

  ghost function Step(config: HostConfig, s: HostState, event: HostEvent): HostState {
    if event.Tick? then AfterTick(config, s, event.now, event.pending) else Reply(config, s, event).state
  }

  ghost predicate Grants(config: HostConfig, s: HostState, event: HostEvent, result: ClientMessageResult) {
    !event.Tick? && Reply(config, s, event).result == result
  }

  /** The state of a run after its first `k` events. */
  ghost function Run(config: HostConfig, s: HostState, events: seq<HostEvent>, k: nat): HostState
    requires k <= |events|
  {
    if k == 0 then s else Step(config, Run(config, s, events, k - 1), events[k - 1])
  }

  /** A rejected message leaves the whole host state unchanged. */
  lemma {:induction false} RejectionChangesNothing(config: HostConfig, s: HostState, event: HostEvent)
    requires Grants(config, s, event, Rejected)
    ensures Step(config, s, event) == s
  {
    hide ConnectionAdmits, ResetIsValid, HelloIsValid, ControlFingerprint, ResetFingerprint, NegotiationFingerprint,
      HelloFingerprint, Decide, MeasurementEnabled, WithRoom, Identifier;
  }
}
