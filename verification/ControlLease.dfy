/** One controller session at a time owns motion; a retired session never owns it again. */
module ControlLease {

  const TWO_63: int := 0x8000_0000_0000_0000
  const TWO_64: int := 0x1_0000_0000_0000_0000

  /** The earliest clock value stands for "no command received yet"; no clock reading equals it. */
  const NEVER: int := -TWO_63

  type Instant = t: int | t > NEVER witness 0
  type UInt64 = x: int | 0 <= x < TWO_64

  datatype Timeouts = Timeouts(soft: int, hard: int, maxQueueAge: int)

  /** The only timeouts a lease is built with: others are refused at construction. */
  type LeaseTimeouts = t: Timeouts | 0 < t.soft < t.hard && 0 <= t.maxQueueAge witness Timeouts(1, 2, 0)

  datatype ControlCommandStamp = ControlCommandStamp(
    sourceId: string, sessionId: string, sequence: UInt64, clientTime: UInt64)

  datatype ControlLeaseDecision =
    | Accepted | MissingSource | MissingSession | MissingClientTime | StaleSequence
    | ClientClockRegression | ActiveOwnerConflict | RetiredSession | ExcessiveQueueAge

  datatype ControlLeaseResetDecision = Ready | SameSession | RetiredConnection

  /** The lease's fields as one value; an empty key means that nobody owns or reserves. */
  datatype LeaseState = LeaseState(
    activeKey: string, resetSessionKey: string, activeSourceId: string, activeSessionId: string, retired: set<string>,
    highestSequence: UInt64, lastClientTime: UInt64, lastReceiveTime: int, estimatedQueueAge: int, safeStopActive: bool)

  const INITIAL_LEASE := LeaseState("", "", "", "", {}, 0, 0, NEVER, 0, true)

  function MakeKey(sourceId: string, id: string): (key: string)
    ensures key != ""
  {
    sourceId + ['\0'] + id
  }

  /** Without a NUL in the source, the key determines both parts. */
  lemma {:induction false} KeyIsInjective(source1: string, id1: string, source2: string, id2: string)
    requires '\0' !in source1 && '\0' !in source2
    requires MakeKey(source1, id1) == MakeKey(source2, id2)
    ensures source1 == source2 && id1 == id2
  {
    var key := MakeKey(source1, id1);
    assert key[|source1|] == '\0' && key[|source2|] == '\0';
    assert forall i :: 0 <= i < |source1| ==> key[i] == source1[i] && source1[i] in source1;
    assert forall i :: 0 <= i < |source2| ==> key[i] == source2[i] && source2[i] in source2;
    assert key[..|source1|] == source1 && key[..|source2|] == source2;
    assert key[|source1| + 1..] == id1 && key[|source2| + 1..] == id2;
  }

  /** An unsigned difference stored in a signed duration: from 2^63 on it turns negative. */
  function SignedDifference(later: UInt64, earlier: UInt64): (difference: int)
    ensures later - earlier < TWO_63 && earlier <= later ==> difference == later - earlier
  {
    var wrapped := (later - earlier) % TWO_64;
    if wrapped < TWO_63 then wrapped else wrapped - TWO_64
  }

  // ---- What each operation does to the state ----

  function OwnedBy(s: LeaseState, command: ControlCommandStamp): bool {
    MakeKey(command.sourceId, command.sessionId) == s.activeKey
  }

  function QueueAge(s: LeaseState, command: ControlCommandStamp, receivedAt: Instant): int {
    if !OwnedBy(s, command) || s.lastReceiveTime == NEVER then 0
    else
      var accumulated := s.estimatedQueueAge + (receivedAt - s.lastReceiveTime)
                         - SignedDifference(command.clientTime, s.lastClientTime);
      if accumulated > 0 then accumulated else 0
  }

  function Decide(timeouts: LeaseTimeouts, s: LeaseState, command: ControlCommandStamp, receivedAt: Instant)
    : ControlLeaseDecision
  {
    var key := MakeKey(command.sourceId, command.sessionId);
    if command.sourceId == "" then MissingSource
    else if command.sessionId == "" then MissingSession
    else if command.clientTime == 0 then MissingClientTime
    else if command.sequence == 0 then StaleSequence
    else if !OwnedBy(s, command) && key in s.retired then RetiredSession
    else if !OwnedBy(s, command) && s.activeKey != "" then ActiveOwnerConflict
    else if OwnedBy(s, command) && command.sequence <= s.highestSequence then StaleSequence
    else if OwnedBy(s, command) && s.lastReceiveTime != NEVER
      && command.clientTime < s.lastClientTime then ClientClockRegression
    else if QueueAge(s, command, receivedAt) > timeouts.maxQueueAge then ExcessiveQueueAge
    else Accepted
  }

  function AfterCommand(
    timeouts: LeaseTimeouts, s: LeaseState, command: ControlCommandStamp, receivedAt: Instant): LeaseState {
    if Decide(timeouts, s, command, receivedAt) != Accepted then s
    else s.(
      activeKey := MakeKey(command.sourceId, command.sessionId),
      activeSourceId := if OwnedBy(s, command) then s.activeSourceId else command.sourceId,
      activeSessionId := if OwnedBy(s, command) then s.activeSessionId else command.sessionId,
      highestSequence := command.sequence, lastClientTime := command.clientTime, lastReceiveTime := receivedAt,
      estimatedQueueAge := QueueAge(s, command, receivedAt), safeStopActive := false)
  }

  function Expires(s: LeaseState, now: Instant, limit: int): bool {
    s.lastReceiveTime != NEVER && now - s.lastReceiveTime > limit
  }

  function AfterSoftDeadline(timeouts: LeaseTimeouts, s: LeaseState, now: Instant): LeaseState {
    if Expires(s, now, timeouts.soft) then s.(safeStopActive := true) else s
  }

  function AfterHardDeadline(timeouts: LeaseTimeouts, s: LeaseState, now: Instant): LeaseState {
    if s.activeKey != "" && Expires(s, now, timeouts.hard)
    then s.(safeStopActive := true, retired := s.retired + {s.activeKey}, activeKey := "")
    else s
  }

  function Unowned(resetSessionKey: string, retired: set<string>): LeaseState {
    LeaseState("", resetSessionKey, "", "", retired, 0, 0, NEVER, 0, true)
  }

  function NonEmpty(key: string): set<string> {
    if key != "" then {key} else {}
  }

  function AfterBegin(s: LeaseState, sourceId: string, sessionId: string): LeaseState {
    var key := MakeKey(sourceId, sessionId);
    if key in s.retired then s
    else Unowned(key, s.retired + (NonEmpty(s.activeKey) + NonEmpty(s.resetSessionKey) - {key}))
  }

  function AfterNewSimulation(s: LeaseState): LeaseState {
    Unowned("", s.retired + NonEmpty(s.activeKey) + NonEmpty(s.resetSessionKey))
  }

  function DecideReconnect(s: LeaseState, sourceId: string, sessionId: string): ControlLeaseResetDecision {
    var key := MakeKey(sourceId, sessionId);
    if key in s.retired then RetiredConnection else if key == s.resetSessionKey then SameSession else Ready
  }

  function AfterReconnect(s: LeaseState, sourceId: string, sessionId: string): LeaseState {
    if DecideReconnect(s, sourceId, sessionId) != Ready then s
    else Unowned(MakeKey(sourceId, sessionId), s.retired + NonEmpty(s.resetSessionKey) + NonEmpty(s.activeKey))
  }

  function HasControlCommand(s: LeaseState): bool {
    s.lastReceiveTime != NEVER
  }

  /** Only the hard deadline clears the owner and keeps its command time. */
  function RequiresReconnect(s: LeaseState): bool {
    HasControlCommand(s) && s.activeKey == ""
  }

  // ---- The lease itself ----

  class ControlLease {
    const timeouts: LeaseTimeouts
    var activeKey: string
    var resetSessionKey: string
    var activeSourceId: string
    var activeSessionId: string
    var retired: set<string>
    var highestSequence: UInt64
    var lastClientTime: UInt64
    var lastReceiveTime: int
    var estimatedQueueAge: int
    var safeStopActive: bool

    function State(): LeaseState
      reads this
    {
      LeaseState(activeKey, resetSessionKey, activeSourceId, activeSessionId, retired, highestSequence,
        lastClientTime, lastReceiveTime, estimatedQueueAge, safeStopActive)
    }

    constructor (timeouts: LeaseTimeouts)
      ensures this.timeouts == timeouts && State() == INITIAL_LEASE
    {
      this.timeouts := timeouts;
      activeKey, resetSessionKey, activeSourceId, activeSessionId, retired := "", "", "", "", {};
      highestSequence, lastClientTime, lastReceiveTime, estimatedQueueAge, safeStopActive := 0, 0, NEVER, 0, true;
    }

    method Accept(command: ControlCommandStamp, receivedAt: Instant) returns (decision: ControlLeaseDecision)
      modifies this
      ensures decision == Decide(timeouts, old(State()), command, receivedAt)
      ensures State() == AfterCommand(timeouts, old(State()), command, receivedAt)
    {
      if command.sourceId == "" {
        return MissingSource;
      }
      if command.sessionId == "" {
        return MissingSession;
      }
      if command.clientTime == 0 {
        return MissingClientTime;
      }
      if command.sequence == 0 {
        return StaleSequence;
      }
      var key := MakeKey(command.sourceId, command.sessionId);
      var sameSession := key == activeKey;
      if !sameSession {
        if key in retired {
          return RetiredSession;
        }
        if activeKey != "" {
          return ActiveOwnerConflict;
        }
      }
      var previousSequence := if sameSession then highestSequence else 0;
      var previousClientTime := if sameSession then lastClientTime else 0;
      var previousReceiveTime := if sameSession then lastReceiveTime else NEVER;
      if command.sequence <= previousSequence {
        return StaleSequence;
      }
      var queueAge := 0;
      if previousReceiveTime != NEVER {
        if command.clientTime < previousClientTime {
          return ClientClockRegression;
        }
        var serverElapsed := receivedAt - previousReceiveTime;
        var clientElapsed := SignedDifference(command.clientTime, previousClientTime);
        var accumulatedAge := estimatedQueueAge + serverElapsed - clientElapsed;
        queueAge := if accumulatedAge > 0 then accumulatedAge else 0;
        if queueAge > timeouts.maxQueueAge {
          return ExcessiveQueueAge;
        }
      }
      if !sameSession {
        // No owner is displaced here: a living one has already refused the command.
        activeKey, activeSourceId, activeSessionId := key, command.sourceId, command.sessionId;
      }
      highestSequence, lastClientTime, lastReceiveTime := command.sequence, command.clientTime, receivedAt;
      estimatedQueueAge, safeStopActive := queueAge, false;
      decision := Accepted;
    }

    method UpdateTimeout(now: Instant) returns (expired: bool)
      modifies this`safeStopActive
      ensures State() == AfterSoftDeadline(timeouts, old(State()), now)
      ensures expired <==> State().safeStopActive && !old(safeStopActive)
      ensures !safeStopActive && lastReceiveTime != NEVER ==> now - lastReceiveTime <= timeouts.soft
    {
      if safeStopActive || lastReceiveTime == NEVER {
        return false;
      }
      if now - lastReceiveTime <= timeouts.soft {
        return false;
      }
      safeStopActive := true;
      expired := true;
    }

    method UpdateHardTimeout(now: Instant) returns (expired: bool)
      modifies this`safeStopActive, this`retired, this`activeKey
      ensures State() == AfterHardDeadline(timeouts, old(State()), now)
      ensures expired <==> activeKey != old(activeKey)
      ensures expired ==> old(activeKey) in retired
    {
      if lastReceiveTime == NEVER || activeKey == "" || now - lastReceiveTime <= timeouts.hard {
        return false;
      }
      safeStopActive := true;
      retired := retired + {activeKey};
      activeKey := "";
      expired := true;
    }

    method BeginNewSimulation(sourceId: string, sessionId: string) returns (decision: ControlLeaseResetDecision)
      modifies this
      ensures State() == AfterBegin(old(State()), sourceId, sessionId)
      ensures decision == if MakeKey(sourceId, sessionId) in old(retired) then RetiredConnection else Ready
    {
      var key := MakeKey(sourceId, sessionId);
      if key in retired {
        return RetiredConnection;
      }
      if activeKey != "" && activeKey != key {
        retired := retired + {activeKey};
      }
      if resetSessionKey != "" && resetSessionKey != key {
        retired := retired + {resetSessionKey};
      }
      Clear(key);
      decision := Ready;
    }

    method ResetForNewSimulation()
      modifies this
      ensures State() == AfterNewSimulation(old(State()))
    {
      if activeKey != "" {
        retired := retired + {activeKey};
      }
      if resetSessionKey != "" {
        retired := retired + {resetSessionKey};
      }
      Clear("");
    }

    method ResetForReconnect(sourceId: string, sessionId: string) returns (decision: ControlLeaseResetDecision)
      modifies this
      ensures State() == AfterReconnect(old(State()), sourceId, sessionId)
      ensures decision == DecideReconnect(old(State()), sourceId, sessionId)
    {
      var key := MakeKey(sourceId, sessionId);
      if key in retired {
        return RetiredConnection;
      }
      if key == resetSessionKey {
        return SameSession;
      }
      if resetSessionKey != "" {
        retired := retired + {resetSessionKey};
      }
      if activeKey != "" {
        retired := retired + {activeKey};
      }
      Clear(key);
      decision := Ready;
    }

    method Clear(key: string)
      modifies this
      ensures State() == Unowned(key, old(retired))
    {
      activeKey, activeSourceId, activeSessionId, resetSessionKey := "", "", "", key;
      highestSequence, lastClientTime, lastReceiveTime, estimatedQueueAge, safeStopActive := 0, 0, NEVER, 0, true;
    }
  }

  // ---- Runs ----

  datatype LeaseEvent =
    | Command(stamp: ControlCommandStamp, at: Instant)
    | SoftDeadline(now: Instant)
    | HardDeadline(now: Instant)
    | Begin(sourceId: string, sessionId: string)
    | NewSimulation
    | Reconnect(sourceId: string, sessionId: string)

  function LeaseStep(timeouts: LeaseTimeouts, s: LeaseState, event: LeaseEvent): LeaseState {
    match event
    case Command(stamp, at) => AfterCommand(timeouts, s, stamp, at)
    case SoftDeadline(now) => AfterSoftDeadline(timeouts, s, now)
    case HardDeadline(now) => AfterHardDeadline(timeouts, s, now)
    case Begin(sourceId, sessionId) => AfterBegin(s, sourceId, sessionId)
    case NewSimulation => AfterNewSimulation(s)
    case Reconnect(sourceId, sessionId) => AfterReconnect(s, sourceId, sessionId)
  }

  function LeaseRun(timeouts: LeaseTimeouts, s: LeaseState, events: seq<LeaseEvent>): LeaseState {
    if events == [] then s
    else LeaseStep(timeouts, LeaseRun(timeouts, s, events[..|events| - 1]), events[|events| - 1])
  }

  /** What every reachable lease keeps: its owner is not retired, and without an owner it is in SafeStop. */
  ghost predicate LeaseInvariant(s: LeaseState) {
    && s.activeKey !in s.retired && "" !in s.retired
    && (s.activeKey == "" ==> s.safeStopActive)
    && (s.activeKey != "" ==> s.lastReceiveTime != NEVER && s.activeKey == MakeKey(s.activeSourceId, s.activeSessionId))
    && s.estimatedQueueAge >= 0
  }

  lemma LeaseStepKeepsInvariant(timeouts: LeaseTimeouts, s: LeaseState, event: LeaseEvent)
    requires LeaseInvariant(s)
    ensures LeaseInvariant(LeaseStep(timeouts, s, event)) && s.retired <= LeaseStep(timeouts, s, event).retired
  {
  }

  /** Fencing: once retired, a session is never again accepted, reset to or reconnected, whatever happens later. */
  lemma {:induction false} RetiredForever(
    timeouts: LeaseTimeouts, s: LeaseState, events: seq<LeaseEvent>, source: string, session: string)
    requires LeaseInvariant(s) && MakeKey(source, session) in s.retired
    ensures var later := LeaseRun(timeouts, s, events);
      && LeaseInvariant(later) && MakeKey(source, session) in later.retired
      && later.activeKey != MakeKey(source, session)
      && AfterBegin(later, source, session) == later && AfterReconnect(later, source, session) == later
      && forall sequence, clientTime, at ::
           Decide(timeouts, later, ControlCommandStamp(source, session, sequence, clientTime), at) != Accepted
  {
    if events != [] {
      RetiredForever(timeouts, s, events[..|events| - 1], source, session);
      LeaseStepKeepsInvariant(timeouts, LeaseRun(timeouts, s, events[..|events| - 1]), events[|events| - 1]);
    }
  }

  // ---- The queue-age estimate ----

  datatype Arrival = Arrival(clientTime: UInt64, receivedAt: Instant)

  /** Receive time less client time: the unknown clock difference plus the time this packet spent queued. */
  function Offset(arrival: Arrival): int {
    arrival.receivedAt - arrival.clientTime
  }

  function LeastOffset(arrivals: seq<Arrival>): (least: int)
    requires arrivals != []
    ensures forall i :: 0 <= i < |arrivals| ==> least <= Offset(arrivals[i])
    ensures exists i :: 0 <= i < |arrivals| && least == Offset(arrivals[i])
  {
    var newest := Offset(arrivals[|arrivals| - 1]);
    if |arrivals| == 1 then newest
    else
      var least := LeastOffset(arrivals[..|arrivals| - 1]);
      if newest < least then newest else least
  }

  /** The accepted arrivals of the present ownership. */
  function Remember(timeouts: LeaseTimeouts, s: LeaseState, arrivals: seq<Arrival>, event: LeaseEvent): seq<Arrival> {
    if event.Command? && Decide(timeouts, s, event.stamp, event.at) == Accepted
    then (if OwnedBy(s, event.stamp) then arrivals else []) + [Arrival(event.stamp.clientTime, event.at)]
    else if LeaseStep(timeouts, s, event).activeKey == "" then []
    else arrivals
  }

  function Arrivals(timeouts: LeaseTimeouts, events: seq<LeaseEvent>): seq<Arrival> {
    if events == [] then []
    else
      var before := events[..|events| - 1];
      Remember(timeouts, LeaseRun(timeouts, INITIAL_LEASE, before), Arrivals(timeouts, before), events[|events| - 1])
  }

  /**
   * The estimate is the newest offset less the least offset of this ownership: the delay gained on the freshest packet.
   */
  ghost predicate ClosedForm(timeouts: LeaseTimeouts, s: LeaseState, arrivals: seq<Arrival>) {
    if s.activeKey == "" then arrivals == []
    else
      && arrivals != []
      && arrivals[|arrivals| - 1].clientTime == s.lastClientTime
      && arrivals[|arrivals| - 1].receivedAt == s.lastReceiveTime
      && s.estimatedQueueAge == Offset(arrivals[|arrivals| - 1]) - LeastOffset(arrivals)
      && s.estimatedQueueAge <= timeouts.maxQueueAge
  }

  lemma {:induction false} LeastOffsetOfMore(arrivals: seq<Arrival>, newest: Arrival)
    requires arrivals != []
    ensures LeastOffset(arrivals + [newest]) == if Offset(newest) < LeastOffset(arrivals) then Offset(newest)
      else LeastOffset(arrivals)
  {
    assert (arrivals + [newest])[..|arrivals|] == arrivals;
  }

  lemma {:induction false} OwnedCommandKeepsClosedForm(
    timeouts: LeaseTimeouts, s: LeaseState, arrivals: seq<Arrival>, stamp: ControlCommandStamp, at: Instant)
    requires LeaseInvariant(s) && ClosedForm(timeouts, s, arrivals)
    requires Decide(timeouts, s, stamp, at) == Accepted && OwnedBy(s, stamp)
    requires stamp.clientTime - s.lastClientTime < TWO_63
    ensures ClosedForm(timeouts, AfterCommand(timeouts, s, stamp, at), arrivals + [Arrival(stamp.clientTime, at)])
  {
    hide LeastOffset, SignedDifference, MakeKey;
    LeastOffsetOfMore(arrivals, Arrival(stamp.clientTime, at));
  }

  lemma {:induction false} NewOwnerStartsClosedForm(
    timeouts: LeaseTimeouts, s: LeaseState, stamp: ControlCommandStamp, at: Instant)
    requires Decide(timeouts, s, stamp, at) == Accepted && !OwnedBy(s, stamp)
    ensures ClosedForm(timeouts, AfterCommand(timeouts, s, stamp, at), [Arrival(stamp.clientTime, at)])
  {
    hide SignedDifference, MakeKey;
  }

  /** One more event keeps the closed form; only a client-time gap of 2^63 ns or more could break it. */
  lemma {:induction false} StepKeepsClosedForm(
    timeouts: LeaseTimeouts, s: LeaseState, arrivals: seq<Arrival>, event: LeaseEvent)
    requires LeaseInvariant(s) && ClosedForm(timeouts, s, arrivals)
    requires event.Command? && OwnedBy(s, event.stamp) ==> event.stamp.clientTime - s.lastClientTime < TWO_63
    ensures ClosedForm(timeouts, LeaseStep(timeouts, s, event), Remember(timeouts, s, arrivals, event))
  {
    if event.Command? && Decide(timeouts, s, event.stamp, event.at) == Accepted {
      hide ClosedForm, Decide, AfterCommand, LeastOffset;
      var newest := Arrival(event.stamp.clientTime, event.at);
      assert [] + [newest] == [newest];
      if OwnedBy(s, event.stamp) {
        OwnedCommandKeepsClosedForm(timeouts, s, arrivals, event.stamp, event.at);
      } else {
        NewOwnerStartsClosedForm(timeouts, s, event.stamp, event.at);
      }
    } else {
      hide LeastOffset, QueueAge, MakeKey;
    }
  }

  /** The closed form after any run of lease operations whose client times stay below 2^63. */
  lemma {:induction false} QueueAgeClosedForm(timeouts: LeaseTimeouts, events: seq<LeaseEvent>)
    requires forall i :: 0 <= i < |events| && events[i].Command? ==> events[i].stamp.clientTime < TWO_63
    ensures LeaseInvariant(LeaseRun(timeouts, INITIAL_LEASE, events))
    ensures ClosedForm(timeouts, LeaseRun(timeouts, INITIAL_LEASE, events), Arrivals(timeouts, events))
  {
    if events != [] {
      var before, event := events[..|events| - 1], events[|events| - 1];
      QueueAgeClosedForm(timeouts, before);
      var s := LeaseRun(timeouts, INITIAL_LEASE, before);
      LeaseStepKeepsInvariant(timeouts, s, event);
      StepKeepsClosedForm(timeouts, s, Arrivals(timeouts, before), event);
    }
  }

  /**
   * A growing backlog cannot keep renewing the lease: the owner's ordered command is accepted exactly when its offset
   * exceeds no accepted offset of this ownership by more than the limit.
   */
  lemma {:induction false} RenewedOnlyWhenFresh(
    timeouts: LeaseTimeouts, s: LeaseState, arrivals: seq<Arrival>, command: ControlCommandStamp, receivedAt: Instant)
    requires LeaseInvariant(s) && ClosedForm(timeouts, s, arrivals) && OwnedBy(s, command)
    requires command.sourceId != "" && command.sessionId != "" && command.clientTime - s.lastClientTime < TWO_63
    ensures Decide(timeouts, s, command, receivedAt) == Accepted <==>
      && command.clientTime > 0 && command.sequence > s.highestSequence && command.clientTime >= s.lastClientTime
      && forall i :: 0 <= i < |arrivals| ==>
           Offset(Arrival(command.clientTime, receivedAt)) - Offset(arrivals[i]) <= timeouts.maxQueueAge
  {
    var newest := Arrival(command.clientTime, receivedAt);
    var i :| 0 <= i < |arrivals| && LeastOffset(arrivals) == Offset(arrivals[i]);
    assert Offset(newest) - Offset(arrivals[i]) <= timeouts.maxQueueAge
      <==> Offset(newest) - LeastOffset(arrivals) <= timeouts.maxQueueAge;
  }

  /** For an accepted command of the owner, the closed form survives exactly when the client-time gap is below 2^63. */
  lemma {:induction false} ClosedFormNeedsSmallGap(
    timeouts: LeaseTimeouts, s: LeaseState, arrivals: seq<Arrival>, command: ControlCommandStamp, receivedAt: Instant)
    requires LeaseInvariant(s) && ClosedForm(timeouts, s, arrivals) && OwnedBy(s, command)
    requires s.lastReceiveTime <= receivedAt && Decide(timeouts, s, command, receivedAt) == Accepted
    ensures var event := Command(command, receivedAt);
      ClosedForm(timeouts, LeaseStep(timeouts, s, event), Remember(timeouts, s, arrivals, event))
      <==> command.clientTime - s.lastClientTime < TWO_63
  {
    LeastOffsetOfMore(arrivals, Arrival(command.clientTime, receivedAt));
    if command.clientTime - s.lastClientTime < TWO_63 {
      StepKeepsClosedForm(timeouts, s, arrivals, Command(command, receivedAt));
    }
  }

  /** A client that jumps by nearly 2^64 ns is charged a queue age it does not have. */
  lemma {:induction false} WrappedGapBreaksClosedForm()
    ensures var timeouts: LeaseTimeouts := Timeouts(10, 20, 5);
      var first, second := ControlCommandStamp("s", "c", 1, 1), ControlCommandStamp("s", "c", 2, TWO_64 - 1);
      var s := AfterCommand(timeouts, INITIAL_LEASE, first, 100);
      && Decide(timeouts, s, second, 100) == Accepted
      && AfterCommand(timeouts, s, second, 100).estimatedQueueAge == 2
      && !ClosedForm(timeouts, AfterCommand(timeouts, s, second, 100), [Arrival(1, 100), Arrival(TWO_64 - 1, 100)])
  {
    var arrivals := [Arrival(1, 100), Arrival(TWO_64 - 1, 100)];
    assert arrivals[..1] == [Arrival(1, 100)];
  }
}
