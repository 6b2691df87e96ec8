/** The host object: message handlers and tick prologue, each proved against the protocol's step functions. */
module SimulationHost {
  import opened Options
  import opened ControlLease
  import opened Fingerprint
  import opened HostProtocol

  method HasCapability(capabilities: seq<Text>, required: Text) returns (found: bool)
    ensures found <==> required in capabilities
  {
    for i := 0 to |capabilities|
      invariant required !in capabilities[..i]
    {
      if capabilities[i] == required {
        return true;
      }
    }
    found := false;
  }

  method CapabilitiesAreValid(capabilities: seq<Text>) returns (valid: bool)
    ensures valid <==> ValidCapabilities(capabilities)
  {
    var unique := {};
    for i := 0 to |capabilities|
      invariant forall c :: c in unique <==> c in capabilities[..i]
      invariant ValidCapabilities(capabilities[..i])
    {
      if !Identifier(capabilities[i], 128, false) || capabilities[i] in unique {
        return false;
      }
      unique := unique + {capabilities[i]};
    }
    assert capabilities[..|capabilities|] == capabilities;
    valid := true;
  }

  /** The connection with the smallest generation. */
  method FindOldest(hellos: map<nat, HelloConnectionState>) returns (oldest: nat)
    requires |hellos| > 0
    ensures oldest == Oldest(hellos.Keys)
  {
    assert hellos.Keys != {} by {
      assert |hellos.Keys| == |hellos|;
    }
    var left := hellos.Keys;
    oldest :| oldest in left;
    while left != {}
      invariant left <= hellos.Keys && oldest in hellos
      invariant forall k :: k in hellos.Keys && k !in left ==> oldest <= k
      decreases |left|
    {
      var k :| k in left;
      if k < oldest {
        oldest := k;
      }
      left := left - {k};
    }
  }

  class SimulationHost {
    const config: HostConfig
    const lease: ControlLease
    var mapChecksum: Text
    var estopLatched: bool
    var applied: VehicleInput
    var lifecycleActive: bool
    var controllerSource: string
    var connectionSession: string
    var generation: nat
    var playKey: string
    var playId: string
    var lifecycleSequence: UInt64
    var lifecycleClientTime: UInt64
    var vehicleClass: RuntimeVehicleClass
    var loadoutId: string
    var hellos: map<nat, HelloConnectionState>
    var seenPlays: set<string>

    ghost predicate Valid() {
      lease.timeouts == config.timeouts
    }

    function State(): HostState
      reads this, lease
    {
      HostState(mapChecksum, lease.State(), estopLatched, applied, lifecycleActive, controllerSource, connectionSession,
        generation, playKey, playId, lifecycleSequence, lifecycleClientTime, vehicleClass, loadoutId, hellos, seenPlays)
    }

    constructor (config: HostConfig, mapChecksum: Text)
      ensures Valid() && fresh(lease) && this.config == config && State() == InitialHost(mapChecksum)
    {
      this.config := config;
      lease := new ControlLease(config.timeouts);
      this.mapChecksum, estopLatched, applied, lifecycleActive := mapChecksum, false, SAFE_STOP, false;
      controllerSource, connectionSession, generation, playKey, playId := "", "", 0, "", "";
      lifecycleSequence, lifecycleClientTime, vehicleClass, loadoutId := 0, 0, Sedan, "";
      hellos, seenPlays := map[], {};
    }

    method HelloAcceptable(hello: ParsedHello, from: nat) returns (acceptable: bool)
      ensures acceptable <==> HelloIsValid(config, mapChecksum, hello, from)
    {
      if from == 0 || hello.sequence == 0 || !Name(hello.sourceId) || !Name(hello.sessionId)
         || !Identifier(hello.build, 128, false) || !Name(hello.mapChecksum) || hello.mapChecksum != mapChecksum
         || hello.schema != PROTOCOL_SCHEMA || |hello.capabilities| == 0 || |hello.capabilities| > 32 {
        return false;
      }
      var valid := CapabilitiesAreValid(hello.capabilities);
      if !valid {
        return false;
      }
      for i := 0 to |REQUIRED_CAPABILITIES|
        invariant forall j :: 0 <= j < i ==> REQUIRED_CAPABILITIES[j] in hello.capabilities
      {
        var present := HasCapability(hello.capabilities, REQUIRED_CAPABILITIES[i]);
        if !present {
          return false;
        }
      }
      var ground := HasCapability(hello.capabilities, "ground-patch.v3");
      if config.liveGround && !ground {
        return false;
      }
      var npcGround := HasCapability(hello.capabilities, "npc-ground.v1");
      if config.liveNpcGround && !npcGround {
        return false;
      }
      var obstacles := HasCapability(hello.capabilities, "world-obstacles.v1");
      if config.liveObstacles && !obstacles {
        return false;
      }
      var parts := HasCapability(hello.capabilities, "vehicle-parts.v1");
      var loadout := HasCapability(hello.capabilities, "vehicle-loadout.v1");
      if config.requireVehicleCatalogIdentity || parts {
        var catalog := HasCapability(hello.capabilities, config.catalogCapability);
        if !catalog || (parts && (CatalogCount(hello.capabilities) != 1 || !loadout)) {
          return false;
        }
      }
      acceptable := true;
    }

    method HandleHello(hello: ParsedHello, from: nat) returns (result: ClientMessageResult)
      requires Valid()
      modifies this`hellos
      ensures Outcome(State(), result) == HostProtocol.HandleHello(config, old(State()), hello, from)
    {
      hide HelloIsValid, NegotiationFingerprint, HelloFingerprint;
      var acceptable := HelloAcceptable(hello, from);
      if !acceptable {
        return Rejected;
      }
      HelloSize(config, mapChecksum, hello, from);
      NegotiationIsShort(config, mapChecksum, hello, from);
      var negotiated := MakeHelloNegotiationFingerprint(hello);
      var fingerprint := MakeHelloPayloadFingerprint(hello, negotiated);
      if from in hellos {
        var known := hellos[from];
        if hello.sourceId != known.sourceId || hello.sessionId != known.sessionId || negotiated != known.negotiated
           || hello.sequence < known.highestSequence {
          return Rejected;
        }
        if hello.sequence == known.highestSequence
           && (known.lastKind != HelloPayload || fingerprint != known.lastFingerprint) {
          return Rejected;
        }
        hellos := hellos[from :=
          known.(highestSequence := hello.sequence, lastKind := HelloPayload, lastFingerprint := fingerprint)];
        return DuplicateHello;
      }
      if |hellos| >= MAXIMUM_HELLO_CONNECTIONS {
        var oldest := FindOldest(hellos);
        hellos := hellos - {oldest};
      }
      hellos := hellos[from := HelloConnectionState(
        hello.sourceId, hello.sessionId, negotiated, hello.sequence, HelloPayload, fingerprint,
        "vehicle-loadout.v1" in hello.capabilities, "vehicle-parts.v1" in hello.capabilities,
        "ground-query-shadow.v1" in hello.capabilities, "ground-query-shadow.v2" in hello.capabilities,
        "ground-patch.v3" in hello.capabilities)];
      result := HelloAccepted;
    }

    method HandleControlMessage(command: ParsedControlCommand, from: nat, receivedAt: Instant)
      returns (result: ClientMessageResult)
      requires Valid()
      modifies this`estopLatched, this`applied, this`hellos, lease
      ensures Outcome(State(), result) == AfterControl(config, old(State()), command, from, receivedAt)
    {
      hide Identifier, Decide, AfterCommand, ControlFingerprint;
      if config.requireClientHello && (from == 0 || from !in hellos) && !command.estop {
        return Rejected;
      }
      var fingerprint := MakeControlPayloadFingerprint(command);
      var admitted := Ordered(from, command.sourceId, command.sessionId, command.sequence, ControlPayload, fingerprint);
      if !admitted {
        return Rejected;
      }
      result := HandleControlCommand(command, receivedAt, from);
      CommitOrder(from, result, ControlPayload, command.sequence, fingerprint);
    }

    /** The connection-bound identity and order comparison that precedes the payload handlers. */
    method Ordered(
      from: nat, source: string, session: string, sequence: UInt64, kind: ClientPayloadKind, fingerprint: string)
      returns (ordered: bool)
      ensures ordered <==> from in hellos ==>
        && source == hellos[from].sourceId && session == hellos[from].sessionId
        && sequence >= hellos[from].highestSequence
        && (sequence == hellos[from].highestSequence ==>
              kind == hellos[from].lastKind && fingerprint == hellos[from].lastFingerprint)
    {
      if from in hellos && (source != hellos[from].sourceId || session != hellos[from].sessionId
                            || sequence < hellos[from].highestSequence) {
        return false;
      }
      if from in hellos && sequence == hellos[from].highestSequence
         && (kind != hellos[from].lastKind || fingerprint != hellos[from].lastFingerprint) {
        return false;
      }
      ordered := true;
    }

    method CommitOrder(
      from: nat, result: ClientMessageResult, kind: ClientPayloadKind, sequence: UInt64, fingerprint: string)
      requires from in hellos ==> sequence >= hellos[from].highestSequence
      modifies this`hellos
      ensures State() == Committed(Outcome(old(State()), result), from, kind, sequence, fingerprint).state
    {
      if from in hellos && AdvancesSequence(result) {
        var known := hellos[from];
        var highest := if known.highestSequence < sequence then sequence else known.highestSequence;
        hellos := hellos[from := known.(highestSequence := highest, lastKind := kind, lastFingerprint := fingerprint)];
      }
    }

    method HandleControlCommand(command: ParsedControlCommand, receivedAt: Instant, from: nat)
      returns (result: ClientMessageResult)
      requires Valid()
      modifies this`estopLatched, this`applied, lease
      ensures Outcome(State(), result) == HandleControl(config, old(State()), command, receivedAt, from)
    {
      hide Identifier, Decide, AfterCommand;
      if !Identifier(command.sourceId, MAXIMUM_IDENTIFIER_BYTES, true)
         || !Identifier(command.sessionId, MAXIMUM_IDENTIFIER_BYTES, true) || !Name(command.mapChecksum) {
        return Rejected;
      }
      if command.mapChecksum != mapChecksum {
        return Rejected;
      }
      if command.estop {
        estopLatched := true;
        applied := SAFE_STOP;
        return EmergencyStopLatched;
      }
      if !lifecycleActive {
        return Rejected;
      }
      if command.sourceId != controllerSource || command.sessionId != connectionSession
         || (generation != 0 && from != generation) {
        return Rejected;
      }
      if estopLatched {
        return Rejected;
      }
      var decision := lease.Accept(Stamp(command), receivedAt);
      if decision != Accepted {
        RefusalKeepsLease(config.timeouts, old(lease.State()), Stamp(command), receivedAt);
        return Rejected;
      }
      applied := command.input;
      result := ControlAccepted;
    }

    method HandleResetMessage(
      reset: ParsedSimulationReset, from: nat, moving: bool) returns (result: ClientMessageResult)
      requires Valid()
      modifies this, lease
      ensures Outcome(State(), result) == AfterReset(config, old(State()), reset, from, moving)
    {
      hide ResetIsValid, ResetFingerprint, SameConnectionReset, ReconnectReset, FreshReset;
      if config.requireClientHello && (from == 0 || from !in hellos) {
        return Rejected;
      }
      var fingerprint := MakeResetPayloadFingerprint(reset);
      var admitted := Ordered(from, reset.sourceId, reset.sessionId, reset.sequence, ResetPayload, fingerprint);
      if !admitted {
        return Rejected;
      }
      result := HandleSimulationReset(reset, from, moving);
      ResetKeepsHellos(config, old(State()), reset, from, moving);
      CommitOrder(from, result, ResetPayload, reset.sequence, fingerprint);
    }

    method Bind(source: string, session: string, play: string, sequence: UInt64, clientTime: UInt64, from: nat)
      modifies this`lifecycleActive, this`controllerSource, this`connectionSession, this`generation, this`playId,
        this`lifecycleSequence, this`lifecycleClientTime
      ensures lifecycleActive && controllerSource == source && connectionSession == session && generation == from
      ensures playId == play && lifecycleSequence == sequence && lifecycleClientTime == clientTime
    {
      lifecycleActive, controllerSource, connectionSession, generation, playId := true, source, session, from, play;
      lifecycleSequence, lifecycleClientTime := sequence, clientTime;
    }

    method HandleSimulationReset(
      reset: ParsedSimulationReset, from: nat, moving: bool) returns (result: ClientMessageResult)
      requires Valid()
      modifies this, lease
      ensures Outcome(State(), result) == HandleReset(config, old(State()), reset, from, moving)
    {
      hide ResetIsValid, SameConnectionReset, ReconnectReset, FreshReset, MakeKey;
      var valid := ResetAcceptable(reset, from, moving);
      if !valid {
        return Rejected;
      }
      if lifecycleActive && from != 0 && generation != 0 {
        if from < generation {
          return Rejected;
        }
        if from == generation {
          result := RepeatReset(reset);
          return;
        }
        if reset.sessionId == connectionSession {
          return Rejected;
        }
      }
      if MakeKey(reset.sourceId, reset.playSessionId) in seenPlays {
        result := ReconnectPlay(reset, from);
      } else {
        result := StartPlay(reset, from);
      }
    }

    method RepeatReset(reset: ParsedSimulationReset) returns (result: ClientMessageResult)
      modifies this`lifecycleSequence, this`lifecycleClientTime
      ensures Outcome(State(), result) == SameConnectionReset(old(State()), reset)
    {
      var sameIdentity := reset.sourceId == controllerSource && reset.sessionId == connectionSession
                          && reset.playSessionId == playId;
      if !sameIdentity || RequestedClass(reset) != vehicleClass || reset.requestedLoadoutId != loadoutId {
        return Rejected;
      }
      if reset.sequence < lifecycleSequence || reset.clientTime < lifecycleClientTime {
        return Rejected;
      }
      if reset.sequence == lifecycleSequence {
        return DuplicateSimulationReset;
      }
      lifecycleSequence, lifecycleClientTime := reset.sequence, reset.clientTime;
      result := DuplicateSimulationReset;
    }

    /** A seen play may only come back as the active one, on a new connection, without a physics reset. */
    method ReconnectPlay(reset: ParsedSimulationReset, from: nat) returns (result: ClientMessageResult)
      requires Valid()
      modifies this, lease
      ensures Outcome(State(), result) == ReconnectReset(old(State()), reset, from)
    {
      hide AfterReconnect, DecideReconnect, MakeKey;
      if MakeKey(reset.sourceId, reset.playSessionId) != playKey {
        return Rejected;
      }
      if RequestedClass(reset) != vehicleClass || reset.requestedLoadoutId != loadoutId {
        return Rejected;
      }
      var reconnect := lease.ResetForReconnect(reset.sourceId, reset.sessionId);
      if reconnect == RetiredConnection {
        RefusalKeepsReconnect(old(lease.State()), reset.sourceId, reset.sessionId);
        return Rejected;
      }
      if reconnect == Ready {
        applied := SAFE_STOP;
      }
      Bind(reset.sourceId, reset.sessionId, reset.playSessionId, reset.sequence, reset.clientTime, from);
      result := DuplicateSimulationReset;
    }

    method StartPlay(reset: ParsedSimulationReset, from: nat) returns (result: ClientMessageResult)
      requires Valid()
      modifies this`vehicleClass, this`loadoutId, this`applied, this`playKey, this`seenPlays, this`lifecycleActive,
        this`controllerSource, this`connectionSession, this`generation, this`playId, this`lifecycleSequence,
        this`lifecycleClientTime, lease
      ensures Outcome(State(), result) == FreshReset(old(State()), reset, from)
    {
      hide AfterBegin, MakeKey, FreshReset, WithPlay;
      ghost var before := State();
      FreshResetCases(before, reset, from);
      if |seenPlays| >= MAXIMUM_PLAY_SESSIONS {
        return Rejected;
      }
      var decision := lease.BeginNewSimulation(reset.sourceId, reset.sessionId);
      if decision == RetiredConnection {
        RefusalKeepsBegin(old(lease.State()), reset.sourceId, reset.sessionId);
        return Rejected;
      }
      InstallPlay(RequestedClass(reset), reset.requestedLoadoutId, MakeKey(reset.sourceId, reset.playSessionId));
      Bind(reset.sourceId, reset.sessionId, reset.playSessionId, reset.sequence, reset.clientTime, from);
      result := SimulationReset;
    }

    /** The vehicle is rebuilt and held still, and the play counts as seen. */
    method InstallPlay(requested: RuntimeVehicleClass, loadout: string, key: string)
      modifies this`vehicleClass, this`loadoutId, this`applied, this`playKey, this`seenPlays
      ensures vehicleClass == requested && loadoutId == loadout && applied == SAFE_STOP
      ensures playKey == key && seenPlays == WithPlay(old(seenPlays), key)
    {
      vehicleClass, loadoutId, applied := requested, loadout, SAFE_STOP;
      seenPlays, playKey := seenPlays + {key}, key;
    }

    method ResetAcceptable(reset: ParsedSimulationReset, from: nat, moving: bool) returns (acceptable: bool)
      ensures acceptable <==> ResetIsValid(config, State(), reset, from, moving)
    {
      hide Identifier;
      if !Name(reset.sourceId) || !Name(reset.sessionId) || !Name(reset.playSessionId) || !Name(reset.mapChecksum) {
        return false;
      }
      if reset.mapChecksum != mapChecksum || reset.sequence == 0 || reset.clientTime == 0 || estopLatched {
        return false;
      }
      var requested := RequestedClass(reset);
      if !config.loadoutResolves(requested, reset.requestedLoadoutId) {
        return false;
      }
      var custom := StartsWith(reset.requestedLoadoutId, "parts_v1_");
      if (reset.requestedLoadoutId != "" && config.requireClientHello) || custom {
        if from !in hellos || !hellos[from].supportsLoadout || (custom && !hellos[from].supportsParts) {
          return false;
        }
      }
      if lifecycleActive && reset.requestedLoadoutId != loadoutId
         && (requested == vehicleClass || reset.requestedLoadoutId != "") && moving {
        return false;
      }
      acceptable := true;
    }

    method HandleMeasurement(m: Measurement, from: nat, admitted: bool) returns (result: ClientMessageResult)
      requires Valid()
      modifies this`hellos
      ensures Outcome(State(), result) == AfterMeasurement(config, old(State()), m, from, admitted)
    {
      hide MeasurementEnabled;
      if !MeasurementEnabled(config, State(), m) || from != generation || from !in hellos {
        return Rejected;
      }
      var known := hellos[from];
      if m.sourceId != controllerSource || m.sourceId != known.sourceId
         || m.sessionId != connectionSession || m.sessionId != known.sessionId
         || m.playSessionId != playId || m.mapChecksum != mapChecksum || m.sequence <= known.highestSequence {
        return Rejected;
      }
      if !admitted {
        return Rejected;
      }
      hellos := hellos[from := known.(highestSequence := m.sequence, lastKind := m.kind, lastFingerprint := "")];
      result := MeasurementAccepted;
    }

    /** The safety prologue of a tick; true when a map reload has consumed the tick. */
    method RunTick(now: Instant, pending: Option<Text>) returns (reloaded: bool)
      requires Valid()
      modifies this, lease
      ensures State() == AfterTick(config, old(State()), now, pending)
      ensures reloaded <==> pending.Some? && pending.value != old(mapChecksum)
    {
      reloaded := ApplyPendingMapPackageReload(pending);
      if reloaded {
        return;
      }
      var expired := lease.UpdateTimeout(now);
      if expired {
        applied := SAFE_STOP;
      }
      var retired := lease.UpdateHardTimeout(now);
    }

    method ApplyPendingMapPackageReload(pending: Option<Text>) returns (reloaded: bool)
      modifies this, lease
      ensures reloaded <==> pending.Some? && pending.value != old(mapChecksum)
      ensures State() == if reloaded then AfterMapReload(old(State()), pending.value) else old(State())
    {
      hide AfterNewSimulation;
      if pending.None? || pending.value == mapChecksum {
        return false;
      }
      mapChecksum := pending.value;
      applied := SAFE_STOP;
      lease.ResetForNewSimulation();
      playKey, playId, controllerSource, connectionSession := "", "", "", "";
      generation, lifecycleSequence, lifecycleClientTime, lifecycleActive := 0, 0, 0, false;
      hellos := map[];
      reloaded := true;
    }

    method MakeHealthSnapshot() returns (status: HealthStatus)
      ensures status == Health(State())
    {
      if estopLatched {
        status := EstopLatched;
      } else if !lifecycleActive {
        status := AwaitingReset;
      } else if lease.lastReceiveTime != NEVER && lease.activeKey == "" {
        status := ReconnectRequired;
      } else if lease.lastReceiveTime == NEVER {
        status := AwaitingControl;
      } else if lease.safeStopActive {
        status := SafeStopped;
      } else {
        status := Active;
      }
    }
  }

  lemma HelloSize(config: HostConfig, mapChecksum: Text, hello: ParsedHello, generation: nat)
    requires HelloIsValid(config, mapChecksum, hello, generation)
    ensures 0 < |hello.capabilities| <= 32
  {
  }

  lemma RefusalKeepsLease(timeouts: LeaseTimeouts, s: LeaseState, command: ControlCommandStamp, receivedAt: Instant)
    requires Decide(timeouts, s, command, receivedAt) != Accepted
    ensures AfterCommand(timeouts, s, command, receivedAt) == s
  {
  }

  lemma RefusalKeepsReconnect(s: LeaseState, source: string, session: string)
    requires DecideReconnect(s, source, session) == RetiredConnection
    ensures AfterReconnect(s, source, session) == s
  {
  }

  lemma RefusalKeepsBegin(s: LeaseState, source: string, session: string)
    requires MakeKey(source, session) in s.retired
    ensures AfterBegin(s, source, session) == s
  {
  }

  lemma {:induction false} FreshResetCases(s: HostState, reset: ParsedSimulationReset, generation: nat)
    ensures |s.seenPlays| >= MAXIMUM_PLAY_SESSIONS || MakeKey(reset.sourceId, reset.sessionId) in s.lease.retired ==>
      FreshReset(s, reset, generation) == Outcome(s, Rejected)
    ensures |s.seenPlays| < MAXIMUM_PLAY_SESSIONS && MakeKey(reset.sourceId, reset.sessionId) !in s.lease.retired ==>
      var play := MakeKey(reset.sourceId, reset.playSessionId);
      FreshReset(s, reset, generation) == Outcome(HostState(
        s.mapChecksum, AfterBegin(s.lease, reset.sourceId, reset.sessionId), s.estopLatched, SAFE_STOP, true,
        reset.sourceId, reset.sessionId, generation, play, reset.playSessionId, reset.sequence, reset.clientTime,
        RequestedClass(reset), reset.requestedLoadoutId, s.hellos, WithPlay(s.seenPlays, play)), SimulationReset)
  {
    hide AfterBegin, MakeKey;
  }

  lemma ResetKeepsHellos(config: HostConfig, s: HostState, reset: ParsedSimulationReset, generation: nat, moving: bool)
    ensures HandleReset(config, s, reset, generation, moving).state.hellos == s.hellos
  {
  }
}
