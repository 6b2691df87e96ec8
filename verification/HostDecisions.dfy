/** Exactly which messages the host accepts, in the fields of the message and of the state, and what they change. */
module HostDecisions {
  import opened ControlLease
  import opened Fingerprint
  import opened HostProtocol
  import opened HostSafety

  // ---- Control ----

  /** The connection may send this frame: known where a Hello is required, its own identity, and in order. */
  predicate InOrder(
    config: HostConfig, s: HostState, generation: nat, source: string, session: string, sequence: UInt64,
    kind: ClientPayloadKind, fingerprint: string)
  {
    && (config.requireClientHello ==> generation != 0 && generation in s.hellos)
    && (generation in s.hellos ==>
          && s.hellos[generation].sourceId == source && s.hellos[generation].sessionId == session
          && (sequence > s.hellos[generation].highestSequence
              || (sequence == s.hellos[generation].highestSequence && s.hellos[generation].lastKind == kind
                  && s.hellos[generation].lastFingerprint == fingerprint)))
  }

  /** The lease takes the command: the first of its ownership, or newer than the last and fresh enough. */
  predicate LeaseTakes(config: HostConfig, s: HostState, command: ParsedControlCommand, at: Instant) {
    var key := MakeKey(command.sourceId, command.sessionId);
    && key !in s.lease.retired && config.timeouts.maxQueueAge >= 0
    && (s.lease.activeKey == ""
        || (s.lease.activeKey == key && command.sequence > s.lease.highestSequence
            && command.clientTime >= s.lease.lastClientTime
            && s.lease.estimatedQueueAge + (at - s.lease.lastReceiveTime)
               - SignedDifference(command.clientTime, s.lease.lastClientTime) <= config.timeouts.maxQueueAge))
  }

  /** An ordinary command of the connection that owns the active lifecycle, for the present map. */
  predicate MayDrive(
    config: HostConfig, s: HostState, command: ParsedControlCommand, generation: nat, at: Instant)
  {
    && InOrder(config, s, generation, command.sourceId, command.sessionId, command.sequence, ControlPayload,
         ControlFingerprint(command))
    && Name(command.mapChecksum) && command.mapChecksum == s.mapChecksum
    && !command.estop && !s.estopLatched && s.lifecycleActive
    && command.sourceId == s.controllerSource && command.sessionId == s.connectionSession
    && (s.generation == 0 || generation == s.generation)
    && command.sequence != 0 && command.clientTime != 0 && LeaseTakes(config, s, command, at)
  }

  lemma {:induction false} LeaseDecision(config: HostConfig, s: HostState, command: ParsedControlCommand, at: Instant)
    requires LeaseInvariant(s.lease)
    requires command.sourceId != "" && command.sessionId != ""
    ensures Decide(config.timeouts, s.lease, Stamp(command), at) == Accepted
       <==> command.sequence != 0 && command.clientTime != 0 && LeaseTakes(config, s, command, at)
  {
    hide MakeKey, SignedDifference;
  }

  lemma {:induction false} NamesAreIdentifiers(name: string)
    requires Name(name)
    ensures name != "" && Identifier(name, MAXIMUM_IDENTIFIER_BYTES, true)
  {
  }

  /** An ordinary command is accepted exactly from the owner, for the present map, in order, fresh and unstopped. */
  lemma {:induction false} ControlAcceptedExactly(
    config: HostConfig, s: HostState, command: ParsedControlCommand, generation: nat, at: Instant)
    requires HostInvariant(config, s)
    ensures AfterControl(config, s, command, generation, at).result == ControlAccepted
       <==> MayDrive(config, s, command, generation, at)
  {
    hide MakeKey, Decide, LeaseTakes, ControlFingerprint, AfterCommand, Identifier, LeaseInvariant, UnboundLifecycle;
    if s.lifecycleActive && command.sourceId == s.controllerSource && command.sessionId == s.connectionSession {
      NamesAreIdentifiers(s.controllerSource);
      NamesAreIdentifiers(s.connectionSession);
      LeaseDecision(config, s, command, at);
    }
  }

  /**
   * What an accepted command changes: the applied input, the lease's owner and marks, and the connection's own mark.
   */
  lemma {:induction false} AcceptedControlEffect(
    config: HostConfig, s: HostState, command: ParsedControlCommand, generation: nat, at: Instant)
    requires AfterControl(config, s, command, generation, at).result == ControlAccepted
    ensures var next := AfterControl(config, s, command, generation, at).state;
      && next == s.(applied := command.input, lease := next.lease, hellos := next.hellos)
      && next.lease.activeKey == MakeKey(command.sourceId, command.sessionId) && !next.lease.safeStopActive
      && next.lease.highestSequence == command.sequence && next.lease.lastClientTime == command.clientTime
      && next.lease.lastReceiveTime == at && next.lease.retired == s.lease.retired
      && next.hellos.Keys == s.hellos.Keys
      && (forall other :: other in s.hellos && other != generation ==> next.hellos[other] == s.hellos[other])
      && (generation in s.hellos ==>
            next.hellos[generation] == s.hellos[generation].(highestSequence := command.sequence,
              lastKind := ControlPayload, lastFingerprint := ControlFingerprint(command)))
  {
    hide MakeKey, Decide, ControlFingerprint, Identifier, QueueAge;
  }

  /** An emergency stop is taken from any connection that may speak at all, for the present map, owner or not. */
  lemma {:induction false} EmergencyStopExactly(
    config: HostConfig, s: HostState, command: ParsedControlCommand, generation: nat, at: Instant)
    ensures AfterControl(config, s, command, generation, at).result == EmergencyStopLatched
       <==> && command.estop && Name(command.mapChecksum) && command.mapChecksum == s.mapChecksum
            && Identifier(command.sourceId, MAXIMUM_IDENTIFIER_BYTES, true)
            && Identifier(command.sessionId, MAXIMUM_IDENTIFIER_BYTES, true)
            && (generation in s.hellos ==>
                  InOrder(config.(requireClientHello := false), s, generation, command.sourceId, command.sessionId,
                    command.sequence, ControlPayload, ControlFingerprint(command)))
    ensures AfterControl(config, s, command, generation, at).result == EmergencyStopLatched ==>
      var next := AfterControl(config, s, command, generation, at).state;
      next.estopLatched && next.applied == SAFE_STOP && next.lease == s.lease
        && next.lifecycleActive == s.lifecycleActive
  {
    hide Decide, ControlFingerprint, Identifier, OwnsLifecycle, AfterCommand;
  }

  // ---- Hello ----

  /** Well-formed, for this protocol, map and catalog, with everything that the host requires among the capabilities. */
  ghost predicate GoodHello(config: HostConfig, s: HostState, hello: ParsedHello, generation: nat) {
    && generation != 0 && hello.sequence != 0 && hello.schema == "simcore-envelope-v2"
    && Name(hello.sourceId) && Name(hello.sessionId) && Name(hello.mapChecksum)
    && hello.mapChecksum == s.mapChecksum && Identifier(hello.build, 128, false)
    && 1 <= |hello.capabilities| <= 32
    && (forall i :: 0 <= i < |hello.capabilities| ==> Identifier(hello.capabilities[i], 128, false))
    && (forall i, j :: 0 <= i < j < |hello.capabilities| ==> hello.capabilities[i] != hello.capabilities[j])
    && "world-state.v2" in hello.capabilities && "control.v2" in hello.capabilities
    && "simulation-reset.v1" in hello.capabilities && "map-package-checksum.v1" in hello.capabilities
    && (config.liveGround ==> "ground-patch.v3" in hello.capabilities)
    && (config.liveNpcGround ==> "npc-ground.v1" in hello.capabilities)
    && (config.liveObstacles ==> "world-obstacles.v1" in hello.capabilities)
    && ("vehicle-parts.v1" in hello.capabilities || config.requireVehicleCatalogIdentity ==>
          config.catalogCapability in hello.capabilities)
    && ("vehicle-parts.v1" in hello.capabilities ==>
          "vehicle-loadout.v1" in hello.capabilities && NamesOneCatalog(hello.capabilities))
  }

  /** Exactly one of the capabilities names a catalog. */
  ghost predicate NamesOneCatalog(capabilities: seq<Text>) {
    exists i :: 0 <= i < |capabilities| && OnlyCatalog(capabilities, i)
  }

  ghost predicate OnlyCatalog(capabilities: seq<Text>, i: nat)
    requires i < |capabilities|
  {
    forall j :: 0 <= j < |capabilities| ==> (StartsWith(capabilities[j], "vehicle-catalog-") <==> j == i)
  }

  lemma {:induction false} NoCatalog(capabilities: seq<Text>)
    ensures CatalogCount(capabilities) == 0
       <==> forall j :: 0 <= j < |capabilities| ==> !StartsWith(capabilities[j], "vehicle-catalog-")
  {
    hide StartsWith;
    if capabilities != [] {
      NoCatalog(capabilities[1..]);
      assert forall j :: 0 < j < |capabilities| ==> capabilities[j] == capabilities[1..][j - 1];
    }
  }

  lemma {:induction false} OneCatalog(capabilities: seq<Text>)
    ensures CatalogCount(capabilities) == 1 <==> NamesOneCatalog(capabilities)
  {
    hide StartsWith;
    if capabilities != [] {
      var rest := capabilities[1..];
      assert forall j :: 0 < j < |capabilities| ==> capabilities[j] == rest[j - 1];
      assert forall j :: 0 <= j < |rest| ==> rest[j] == capabilities[j + 1];
      NoCatalog(rest);
      OneCatalog(rest);
      if StartsWith(capabilities[0], "vehicle-catalog-") {
        if CatalogCount(rest) == 0 {
          assert OnlyCatalog(capabilities, 0);
        } else {
          var j :| 0 <= j < |rest| && StartsWith(rest[j], "vehicle-catalog-");
          assert StartsWith(capabilities[j + 1], "vehicle-catalog-");
        }
      } else {
        if i :| 0 <= i < |rest| && OnlyCatalog(rest, i) {
          assert OnlyCatalog(capabilities, i + 1);
        }
        if i :| 0 <= i < |capabilities| && OnlyCatalog(capabilities, i) {
          assert OnlyCatalog(rest, i - 1);
        }
      }
    }
  }

  lemma {:induction false} GoodHelloIsValid(config: HostConfig, s: HostState, hello: ParsedHello, generation: nat)
    ensures GoodHello(config, s, hello, generation) <==> HelloIsValid(config, s.mapChecksum, hello, generation)
  {
    hide Identifier, NamesOneCatalog, CatalogCount;
    OneCatalog(hello.capabilities);
    assert REQUIRED_CAPABILITIES[0] == "world-state.v2" && REQUIRED_CAPABILITIES[1] == "control.v2"
        && REQUIRED_CAPABILITIES[2] == "simulation-reset.v1" && REQUIRED_CAPABILITIES[3] == "map-package-checksum.v1";
  }

  /** The same negotiation of the same session on a known connection, in order. */
  ghost predicate RepeatsHello(config: HostConfig, s: HostState, hello: ParsedHello, generation: nat)
    requires GoodHello(config, s, hello, generation)
  {
    GoodHelloIsValid(config, s, hello, generation);
    NegotiationIsShort(config, s.mapChecksum, hello, generation);
    && generation in s.hellos
    && NegotiationFingerprint(hello) == s.hellos[generation].negotiated
    && InOrder(config, s, generation, hello.sourceId, hello.sessionId, hello.sequence, HelloPayload,
         HelloFingerprint(hello))
  }

  /** A Hello is accepted exactly when it is good and the first of its connection. */
  lemma {:induction false} HelloAcceptedExactly(config: HostConfig, s: HostState, hello: ParsedHello, generation: nat)
    ensures HandleHello(config, s, hello, generation).result == HelloAccepted
       <==> GoodHello(config, s, hello, generation) && generation !in s.hellos
    ensures HandleHello(config, s, hello, generation).result == DuplicateHello
       <==> GoodHello(config, s, hello, generation) && RepeatsHello(config, s, hello, generation)
  {
    hide HelloIsValid, NegotiationFingerprint, HelloFingerprint, WithRoom, NamesOneCatalog, Identifier;
    GoodHelloIsValid(config, s, hello, generation);
    if HelloIsValid(config, s.mapChecksum, hello, generation) {
      NegotiationIsShort(config, s.mapChecksum, hello, generation);
    }
  }

  // ---- What a Hello's capabilities allow ----

  lemma RoomKeepsOthers(hellos: map<nat, HelloConnectionState>)
    ensures WithRoom(hellos).Keys <= hellos.Keys && forall k :: k in WithRoom(hellos) ==>
      WithRoom(hellos)[k] == hellos[k]
  {
  }

  /**
   * After a first Hello exactly the announced capabilities are open to its connection, and no other connection gains.
   */
  lemma {:induction false} HelloOpensItsCapabilities(
    config: HostConfig, s: HostState, hello: ParsedHello, generation: nat, reset: ParsedSimulationReset)
    requires HandleHello(config, s, hello, generation).result == HelloAccepted
    ensures var next := HandleHello(config, s, hello, generation).state;
      var custom := StartsWith(reset.requestedLoadoutId, "parts_v1_");
      && (LoadoutNegotiated(config, next, reset, generation) <==>
            (custom || (reset.requestedLoadoutId != "" && config.requireClientHello) ==>
               "vehicle-loadout.v1" in hello.capabilities)
            && (custom ==> "vehicle-parts.v1" in hello.capabilities))
      && (forall other :: other in next.hellos && other != generation ==>
            other in s.hellos && next.hellos[other] == s.hellos[other])
  {
    hide HelloIsValid, NegotiationFingerprint, HelloFingerprint, WithRoom, StartsWith;
    RoomKeepsOthers(s.hellos);
  }

  /** Live measurements of the owning connection are taken exactly as its Hello announced. */
  lemma {:induction false} HelloOpensMeasurements(
    config: HostConfig, s: HostState, hello: ParsedHello, generation: nat, m: Measurement)
    requires HandleHello(config, s, hello, generation).result == HelloAccepted && s.generation == generation
    ensures var next := HandleHello(config, s, hello, generation).state;
      var owned := s.lifecycleActive && !s.estopLatched && !RequiresReconnect(s.lease);
      && (m.kind == WorldRevisionPayload ==> (MeasurementEnabled(config, next, m) <==>
            owned && config.liveGround && "ground-patch.v3" in hello.capabilities))
      && (m.kind == ObstaclePayload ==> (MeasurementEnabled(config, next, m) <==>
            owned && config.liveObstacles && config.liveGround && "ground-patch.v3" in hello.capabilities))
      && (m.kind == GroundQueryPayload && m.livePatch ==> (MeasurementEnabled(config, next, m) <==>
            owned && (if m.npcTile then config.liveNpcGround else config.liveGround)
            && "ground-patch.v3" in hello.capabilities))
      && (m.kind == GroundQueryPayload && !m.livePatch ==> (MeasurementEnabled(config, next, m) <==>
            owned && (if m.npcTile then config.liveNpcGround else config.groundQueryShadow)
            && "ground-query-shadow.v1" in hello.capabilities))
  {
    hide HelloIsValid, NegotiationFingerprint, HelloFingerprint, WithRoom;
  }

  // ---- Resets ----

  /**
   * Well-formed, for the present map, with a vehicle that resolves and was negotiated, and no change of it on the move.
   */
  predicate GoodReset(config: HostConfig, s: HostState, reset: ParsedSimulationReset, generation: nat, moving: bool) {
    var class_ := if reset.requestedClass == Unspecified then Sedan else reset.requestedClass;
    && Name(reset.sourceId) && Name(reset.sessionId) && Name(reset.playSessionId) && Name(reset.mapChecksum)
    && reset.mapChecksum == s.mapChecksum && reset.sequence > 0 && reset.clientTime > 0 && !s.estopLatched
    && config.loadoutResolves(class_, reset.requestedLoadoutId)
    && (StartsWith(reset.requestedLoadoutId, "parts_v1_") ==>
          generation in s.hellos && s.hellos[generation].supportsLoadout && s.hellos[generation].supportsParts)
    && (reset.requestedLoadoutId != "" && config.requireClientHello ==>
          generation in s.hellos && s.hellos[generation].supportsLoadout)
    && (s.lifecycleActive && moving ==>
          reset.requestedLoadoutId == s.loadoutId || (reset.requestedLoadoutId == "" && class_ != s.vehicleClass))
  }

  lemma GoodResetIsValid(config: HostConfig, s: HostState, reset: ParsedSimulationReset, generation: nat, moving: bool)
    ensures GoodReset(config, s, reset, generation, moving) <==> ResetIsValid(config, s, reset, generation, moving)
  {
  }

  /** The reset comes over the connection that owns the lifecycle. */
  predicate FromOwner(s: HostState, generation: nat) {
    s.lifecycleActive && generation != 0 && generation == s.generation
  }

  /** An ordered lifecycle yields only to a later connection with another session. */
  predicate MayTakeOver(s: HostState, reset: ParsedSimulationReset, generation: nat) {
    s.lifecycleActive && generation != 0 && s.generation != 0 ==>
      generation > s.generation && reset.sessionId != s.connectionSession
  }

  predicate SameVehicleAs(s: HostState, reset: ParsedSimulationReset) {
    && reset.requestedLoadoutId == s.loadoutId
    && s.vehicleClass == if reset.requestedClass == Unspecified then Sedan else reset.requestedClass
  }

  /** The owner repeats the reset of its play, no older than the last. */
  predicate RepeatsReset(s: HostState, reset: ParsedSimulationReset, generation: nat) {
    && FromOwner(s, generation) && reset.sourceId == s.controllerSource && reset.sessionId == s.connectionSession
    && reset.playSessionId == s.playId && SameVehicleAs(s, reset)
    && reset.sequence >= s.lifecycleSequence && reset.clientTime >= s.lifecycleClientTime
  }

  /** Another connection comes back to the play that is active, with its vehicle. */
  predicate Reconnects(s: HostState, reset: ParsedSimulationReset, generation: nat) {
    && !FromOwner(s, generation) && MayTakeOver(s, reset, generation) && SameVehicleAs(s, reset)
    && MakeKey(reset.sourceId, reset.playSessionId) in s.seenPlays
    && MakeKey(reset.sourceId, reset.playSessionId) == s.playKey
  }

  /** A play that was never seen starts, while there is room for one more. */
  predicate StartsNewPlay(s: HostState, reset: ParsedSimulationReset, generation: nat) {
    && !FromOwner(s, generation) && MayTakeOver(s, reset, generation)
    && MakeKey(reset.sourceId, reset.playSessionId) !in s.seenPlays && |s.seenPlays| < 4096
  }

  predicate Admitted(config: HostConfig, s: HostState, reset: ParsedSimulationReset, generation: nat) {
    InOrder(config, s, generation, reset.sourceId, reset.sessionId, reset.sequence, ResetPayload,
      ResetFingerprint(reset))
  }

  /**
   * For a session that is not retired: the physics is reset exactly for a new play, and a duplicate is reported exactly
   * for the owner's repeat and for a return to the active play.
   */
  lemma {:induction false} ResetDecidedExactly(
    config: HostConfig, s: HostState, reset: ParsedSimulationReset, generation: nat, moving: bool)
    requires MakeKey(reset.sourceId, reset.sessionId) !in s.lease.retired
    ensures var result := AfterReset(config, s, reset, generation, moving).result;
      var open := Admitted(config, s, reset, generation) && GoodReset(config, s, reset, generation, moving);
      && (result == SimulationReset <==> open && StartsNewPlay(s, reset, generation))
      && (result == DuplicateSimulationReset <==>
            open && (RepeatsReset(s, reset, generation) || Reconnects(s, reset, generation)))
      && (result == SimulationReset || result == DuplicateSimulationReset || result == Rejected)
  {
    hide GoodReset, ResetIsValid, MakeKey, ResetFingerprint, AfterReconnect, AfterBegin, WithPlay;
    GoodResetIsValid(config, s, reset, generation, moving);
  }

  /** The lifecycle belongs to the reset's connection, play and marks. */
  predicate BelongsTo(next: HostState, reset: ParsedSimulationReset, generation: nat) {
    && next.lifecycleActive && next.generation == generation
    && next.controllerSource == reset.sourceId && next.connectionSession == reset.sessionId
    && next.playId == reset.playSessionId && next.playKey == MakeKey(reset.sourceId, reset.playSessionId)
    && next.lifecycleSequence == reset.sequence && next.lifecycleClientTime == reset.clientTime
    && SameVehicleAs(next, reset) && next.playKey in next.seenPlays
  }

  /** A new play on a standing vehicle, with a lease that is reserved for its connection and owned by nobody. */
  predicate IsNewPlay(s: HostState, reset: ParsedSimulationReset, generation: nat, next: HostState) {
    && BelongsTo(next, reset, generation) && next.applied == SAFE_STOP
    && next.seenPlays == s.seenPlays + {MakeKey(reset.sourceId, reset.playSessionId)}
    && next.lease.activeKey == "" && next.lease.resetSessionKey == MakeKey(reset.sourceId, reset.sessionId)
    && next.lease.safeStopActive && next.lease.lastReceiveTime == NEVER && s.lease.retired <= next.lease.retired
    && next.mapChecksum == s.mapChecksum && next.estopLatched == s.estopLatched
  }

  /** The play goes on under another connection; only a change of connection stops the vehicle. */
  predicate IsReconnected(s: HostState, reset: ParsedSimulationReset, generation: nat, next: HostState) {
    && BelongsTo(next, reset, generation) && next.seenPlays == s.seenPlays
    && next.lease.resetSessionKey == MakeKey(reset.sourceId, reset.sessionId)
    && (if s.lease.resetSessionKey == next.lease.resetSessionKey then next.lease == s.lease && next.applied == s.applied
        else next.lease.activeKey == "" && next.lease.safeStopActive && next.applied == SAFE_STOP)
    && next.mapChecksum == s.mapChecksum && next.estopLatched == s.estopLatched
  }

  lemma {:induction false} FreshEffect(s: HostState, reset: ParsedSimulationReset, generation: nat)
    requires FreshReset(s, reset, generation).result == SimulationReset
    ensures IsNewPlay(s, reset, generation, FreshReset(s, reset, generation).state)
  {
    hide MakeKey;
  }

  lemma {:induction false} ReconnectEffect(s: HostState, reset: ParsedSimulationReset, generation: nat)
    requires ReconnectReset(s, reset, generation).result == DuplicateSimulationReset
    requires MakeKey(reset.sourceId, reset.playSessionId) in s.seenPlays
    ensures IsReconnected(s, reset, generation, ReconnectReset(s, reset, generation).state)
  {
    hide MakeKey;
  }

  lemma {:induction false} HandledEffect(
    config: HostConfig, s: HostState, reset: ParsedSimulationReset, generation: nat, moving: bool)
    ensures var outcome := HandleReset(config, s, reset, generation, moving);
      && (outcome.result == SimulationReset ==> IsNewPlay(s, reset, generation, outcome.state))
      && (outcome.result == DuplicateSimulationReset && !FromOwner(s, generation) ==>
            IsReconnected(s, reset, generation, outcome.state))
  {
    hide ResetIsValid, MakeKey, FreshReset, ReconnectReset, IsNewPlay, IsReconnected;
    ResultsOfResets(s, reset, generation);
    if FreshReset(s, reset, generation).result == SimulationReset {
      FreshEffect(s, reset, generation);
    }
    if ReconnectReset(s, reset, generation).result == DuplicateSimulationReset
      && MakeKey(reset.sourceId, reset.playSessionId) in s.seenPlays {
      ReconnectEffect(s, reset, generation);
    }
  }

  lemma ResultsOfResets(s: HostState, reset: ParsedSimulationReset, generation: nat)
    ensures FreshReset(s, reset, generation).result != DuplicateSimulationReset
    ensures ReconnectReset(s, reset, generation).result != SimulationReset
    ensures SameConnectionReset(s, reset).result != SimulationReset
  {
  }

  lemma {:induction false} CommitKeepsEffect(
    s: HostState, reset: ParsedSimulationReset, from: nat, outcome: Outcome, generation: nat, kind: ClientPayloadKind,
    sequence: UInt64, fingerprint: string)
    ensures var next := Committed(outcome, generation, kind, sequence, fingerprint);
      && next.result == outcome.result
      && IsNewPlay(s, reset, from, next.state) == IsNewPlay(s, reset, from, outcome.state)
      && IsReconnected(s, reset, from, next.state) == IsReconnected(s, reset, from, outcome.state)
  {
    hide MakeKey, Recorded;
  }

  /** What a new play and a return to the active one change. */
  lemma {:induction false} ResetEffect(
    config: HostConfig, s: HostState, reset: ParsedSimulationReset, generation: nat, moving: bool)
    ensures var outcome := AfterReset(config, s, reset, generation, moving);
      && (outcome.result == SimulationReset ==> IsNewPlay(s, reset, generation, outcome.state))
      && (outcome.result == DuplicateSimulationReset && !FromOwner(s, generation) ==>
            IsReconnected(s, reset, generation, outcome.state))
  {
    hide HandleReset, ConnectionAdmits, Committed, ResetFingerprint, IsNewPlay, IsReconnected, FromOwner;
    HandledEffect(config, s, reset, generation, moving);
    CommitKeepsEffect(s, reset, generation, HandleReset(config, s, reset, generation, moving), generation, ResetPayload,
      reset.sequence, ResetFingerprint(reset));
  }

  // ---- Health ----

  /** Each status exactly, in the order of severity. */
  lemma HealthIsExact(s: HostState)
    ensures Health(s) == EstopLatched <==> s.estopLatched
    ensures Health(s) == AwaitingReset <==> !s.estopLatched && !s.lifecycleActive
    ensures Health(s) == AwaitingControl <==>
      !s.estopLatched && s.lifecycleActive && s.lease.lastReceiveTime == NEVER
    ensures Health(s) == ReconnectRequired <==>
      !s.estopLatched && s.lifecycleActive && s.lease.lastReceiveTime != NEVER && s.lease.activeKey == ""
    ensures Health(s) == SafeStopped <==>
      && !s.estopLatched && s.lifecycleActive && s.lease.lastReceiveTime != NEVER && s.lease.activeKey != ""
      && s.lease.safeStopActive
    ensures Health(s) == HealthStatus.Active <==>
      && !s.estopLatched && s.lifecycleActive && s.lease.lastReceiveTime != NEVER && s.lease.activeKey != ""
      && !s.lease.safeStopActive
  {
  }
}
