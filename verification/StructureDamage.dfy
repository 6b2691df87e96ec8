/** Damage to buildings and signal poles: the sliding contact window, impact episodes and the breakaway budget. */
module StructureDamage {
  import opened Planar
  import opened ContactWindow

  const MAXIMUM_CONTACT_IMPULSE_N_S: real := 1000000.0
  const BUILDING_DAMAGE_ONSET_N_S: real := 900.0
  const BUILDING_FULL_DAMAGE_N_S: real := 12000.0
  const POLE_DAMAGE_ONSET_N_S: real := 250.0
  const POLE_COLLAPSE_N_S: real := 2500.0
  const MAXIMUM_EVENT_SEQUENCE: nat := 0xFFFF_FFFF
  const MAXIMUM_TICK_S: real := 10.0
  const LEAST_BREAKAWAY_N_S: real := 0.000001

  datatype Target = Target(
    pole: bool, damage: real, disabled: bool, eventSequence: nat, breakawayReleased: bool, pendingImpulse: real,
    quiet: real, window: seq<ContactInterval>, windowDuration: real, windowImpulse: real,
    episodePeak: real, episodeDamage: real, episodeHasEvent: bool)

  function NewTarget(pole: bool): Target {
    Target(pole, 0.0, false, 0, false, 0.0, CONTACT_WINDOW_S, [], 0.0, 0.0, 0.0, 0.0, false)
  }

  // ---- The sliding contact window ----

  /** The running sums are those of the deque. */
  ghost predicate SumsAgree(t: Target) {
    && NotNegative(t.window)
    && t.windowDuration == DurationOf(t.window) && t.windowImpulse == ImpulseOf(t.window)
  }

  ghost predicate ValidWindow(t: Target) {
    SumsAgree(t) && GoodWindow(t.window)
  }

  function WithWindow(t: Target, window: seq<ContactInterval>): Target {
    t.(window := window, windowDuration := DurationOf(window), windowImpulse := ImpulseOf(window))
  }

  /** Files one interval; a second impulse in the same instant joins the first. */
  method PushInterval(t: Target, dt: real, impulse: real) returns (next: Target)
    requires SumsAgree(t) && dt >= 0.0 && impulse >= 0.0
    ensures next == WithWindow(t, Filed(t.window, dt, impulse)) && SumsAgree(next)
    ensures next.windowDuration == t.windowDuration + dt && next.windowImpulse == t.windowImpulse + impulse
  {
    FiledSums(t.window, dt, impulse);
    next := t;
    var n := |t.window|;
    if dt == 0.0 && n > 0 && t.window[n - 1].duration == 0.0 {
      var last := t.window[n - 1];
      next := next.(window := t.window[..n - 1] + [last.(impulse := last.impulse + impulse)]);
    } else {
      next := next.(window := t.window + [ContactInterval(dt, impulse)]);
    }
    next := next.(windowDuration := t.windowDuration + dt, windowImpulse := t.windowImpulse + impulse);
  }

  /** Drops exactly what is older than the window: whole intervals, and the old part of the last one in proportion. */
  method ExpireOld(t: Target) returns (next: Target)
    requires SumsAgree(t)
    ensures next == WithWindow(t, Trimmed(t.window, ExcessOf(t.window))) && SumsAgree(next)
    ensures next.windowDuration <= CONTACT_WINDOW_S + EPSILON && next.windowImpulse <= t.windowImpulse
    ensures next.windowDuration >= Min(t.windowDuration, CONTACT_WINDOW_S - EPSILON)
    ensures t.windowDuration <= CONTACT_WINDOW_S + EPSILON ==> next == t
  {
    hide Younger, NotNegative, Trimmed, DurationOf, ImpulseOf;
    next := t;
    var excess := Max(0.0, t.windowDuration - CONTACT_WINDOW_S);
    TrimmedSums(t.window, excess);
    while next.window != [] && excess > EPSILON
      invariant next == WithWindow(t, next.window) && NotNegative(next.window) && excess >= 0.0
      invariant Trimmed(next.window, excess) == Trimmed(t.window, ExcessOf(t.window))
      decreases |next.window|, if excess > EPSILON then 1 else 0
    {
      var oldest := next.window[0];
      TrimOnce(next.window, excess);
      if oldest.duration <= excess + EPSILON {
        excess := Max(0.0, excess - oldest.duration);
        next := next.(window := next.window[1..], windowDuration := next.windowDuration - oldest.duration,
                      windowImpulse := next.windowImpulse - oldest.impulse);
      } else {
        var removed := oldest.impulse * excess / oldest.duration;
        var younger := ContactInterval(oldest.duration - excess, oldest.impulse - removed);
        YoungerIs(oldest, excess);
        next := next.(window := [younger] + next.window[1..], windowDuration := next.windowDuration - excess,
                      windowImpulse := next.windowImpulse - removed);
        excess := 0.0;
      }
    }
    TrimmedIsDone(next.window, excess);
  }

  /** One turn of the loop is one unfolding of the trimmed window, sums included. */
  lemma {:induction false} TrimOnce(window: seq<ContactInterval>, excess: real)
    requires window != [] && NotNegative(window) && excess > EPSILON
    ensures var oldest, rest := window[0], window[1..];
      if oldest.duration <= excess + EPSILON then
        && Trimmed(window, excess) == Trimmed(rest, Max(0.0, excess - oldest.duration)) && NotNegative(rest)
        && DurationOf(rest) == DurationOf(window) - oldest.duration
        && ImpulseOf(rest) == ImpulseOf(window) - oldest.impulse
      else
        var cut := [Younger(oldest, excess)] + rest;
        && Trimmed(window, excess) == cut == Trimmed(cut, 0.0) && NotNegative(cut)
        && DurationOf(cut) == DurationOf(window) - oldest.duration + Younger(oldest, excess).duration
        && ImpulseOf(cut) == ImpulseOf(window) - oldest.impulse + Younger(oldest, excess).impulse
  {
    var oldest := window[0];
    if oldest.duration > excess + EPSILON {
      RestNotNegative(window);
      YoungerPart(oldest, excess);
      hide Younger;
      ReplacedFirst(window, Younger(oldest, excess));
    }
  }

  lemma TrimmedIsDone(window: seq<ContactInterval>, excess: real)
    requires window == [] || excess <= EPSILON
    ensures Trimmed(window, excess) == window
  {
  }

  lemma YoungerIs(oldest: ContactInterval, excess: real)
    requires oldest.duration != 0.0
    ensures Younger(oldest, excess)
         == ContactInterval(oldest.duration - excess, oldest.impulse - oldest.impulse * excess / oldest.duration)
  {
  }

  lemma RestNotNegative(window: seq<ContactInterval>)
    requires window != [] && NotNegative(window)
    ensures NotNegative(window[1..]) && window[0].impulse >= 0.0 && window[0].duration >= 0.0
  {
  }

  /** Merges the oldest intervals until the deque is short enough; the sums do not change. */
  method MergeOldest(t: Target) returns (next: Target)
    requires SumsAgree(t)
    ensures next == WithWindow(t, Shortened(t.window)) && SumsAgree(next)
    ensures |next.window| <= MAXIMUM_WINDOW_INTERVALS
    ensures next.windowDuration == t.windowDuration && next.windowImpulse == t.windowImpulse
  {
    hide NotNegative, DurationOf, ImpulseOf;
    next := t;
    ShortenedSums(t.window);
    while |next.window| > MAXIMUM_WINDOW_INTERVALS
      invariant next == t.(window := next.window) && Shortened(next.window) == Shortened(t.window)
      invariant NotNegative(next.window)
      invariant DurationOf(next.window) == DurationOf(t.window) && ImpulseOf(next.window) == ImpulseOf(t.window)
    {
      var oldest, second := next.window[0], next.window[1];
      var merged := ContactInterval(second.duration + oldest.duration, second.impulse + oldest.impulse);
      JoinedSums(next.window);
      next := next.(window := [merged] + next.window[2..]);
    }
  }

  /** The window after a tick: exactly what was filed, less what is older than a quarter second. */
  method UpdateWindow(t: Target, dt: real, impulse: real) returns (next: Target)
    requires ValidWindow(t) && dt >= 0.0 && impulse >= 0.0
    ensures next == WithWindow(t, NextWindow(t.window, dt, impulse)) && ValidWindow(next)
    ensures next.windowDuration >= Min(t.windowDuration + dt, CONTACT_WINDOW_S - EPSILON)
    ensures 0.0 <= next.windowImpulse <= t.windowImpulse + impulse
    ensures t.windowDuration + dt <= CONTACT_WINDOW_S + EPSILON ==> next.windowImpulse == t.windowImpulse + impulse
  {
    hide NotNegative, DurationOf, ImpulseOf, Filed, Trimmed, Shortened;
    next := t;
    NextWindowSums(t.window, dt, impulse);
    SumsNotNegative(NextWindow(t.window, dt, impulse));
    if dt == 0.0 && impulse == 0.0 {
      return;
    }
    next := PushInterval(next, dt, impulse);
    next := ExpireOld(next);
    next := MergeOldest(next);
    next := next.(windowImpulse := Max(0.0, next.windowImpulse));
  }

  // ---- Damage episodes ----

  function Onset(pole: bool): real {
    if pole then POLE_DAMAGE_ONSET_N_S else BUILDING_DAMAGE_ONSET_N_S
  }

  function Full(pole: bool): real {
    if pole then POLE_COLLAPSE_N_S else BUILDING_FULL_DAMAGE_N_S
  }

  /** The damage curve: nothing up to the onset, everything from the full impulse on, linear in between. */
  function Curve(pole: bool, peak: real): real {
    100.0 * Clamp((peak - Onset(pole)) / (Full(pole) - Onset(pole)), 0.0, 1.0)
  }

  lemma CurveRises(pole: bool, peak: real, higher: real)
    requires peak <= higher
    ensures 0.0 <= Curve(pole, peak) <= Curve(pole, higher) <= 100.0
  {
  }

  function PeakAfter(t: Target, windowImpulse: real, impulse: real): real {
    Max(t.episodePeak, Max(windowImpulse, impulse))
  }

  /** How far the curve rises above the episode's damage so far when the peak reaches `peak`. */
  function RiseTo(t: Target, peak: real): real {
    Max(0.0, Curve(t.pole, peak) - t.episodeDamage)
  }

  /** The damage that one tick's contact does; `windowImpulse` is the impulse in the window just updated. */
  function AfterContact(t: Target, windowImpulse: real, impulse: real): Target {
    var peak := PeakAfter(t, windowImpulse, impulse);
    var episode := Curve(t.pole, peak);
    var added := RiseTo(t, peak);
    var struck := t.(quiet := 0.0, episodePeak := peak, episodeDamage := episode);
    if added > EPSILON && (!t.pole || t.damage < 100.0) then
      var damage := Min(100.0, t.damage + added);
      var collapsed := t.pole && damage + EPSILON >= 100.0;
      struck.(damage := if collapsed then 100.0 else damage,
              eventSequence := if !t.episodeHasEvent && t.eventSequence < MAXIMUM_EVENT_SEQUENCE
                               then t.eventSequence + 1 else t.eventSequence,
              episodeHasEvent := true, disabled := t.disabled || collapsed,
              breakawayReleased := t.breakawayReleased || collapsed)
    else struck
  }

  /** A quarter second without contact ends the episode. */
  function AfterQuiet(t: Target, dt: real): Target {
    var quiet := Min(CONTACT_WINDOW_S, t.quiet + dt);
    if quiet + EPSILON >= CONTACT_WINDOW_S
    then t.(quiet := quiet, episodePeak := 0.0, episodeDamage := 0.0, episodeHasEvent := false)
    else t.(quiet := quiet)
  }

  function AfterTick(t: Target, windowImpulse: real, impulse: real, dt: real): Target {
    if impulse > 0.0 then AfterContact(t, windowImpulse, impulse) else AfterQuiet(t, dt)
  }

  ghost predicate ValidTarget(t: Target) {
    && 0.0 <= t.damage <= 100.0 && t.episodePeak >= 0.0 && t.episodeDamage == Curve(t.pole, t.episodePeak)
    && 0.0 <= t.pendingImpulse <= MAXIMUM_CONTACT_IMPULSE_N_S
    && (t.pole && t.disabled ==> t.damage == 100.0 && t.breakawayReleased)
  }

  lemma NewTargetIsValid(pole: bool)
    ensures ValidTarget(NewTarget(pole)) && ValidWindow(NewTarget(pole))
  {
  }

  /** Damage never falls, and a tick keeps the target valid. */
  lemma {:induction false} DamageNeverFalls(t: Target, windowImpulse: real, impulse: real, dt: real)
    requires ValidTarget(t) && windowImpulse >= 0.0
    ensures var next := AfterTick(t, windowImpulse, impulse, dt);
      && ValidTarget(next) && next.damage >= t.damage && next.eventSequence >= t.eventSequence
      && (t.disabled ==> next.disabled)
      && (next.episodePeak < t.episodePeak ==> impulse <= 0.0 && next.episodePeak == 0.0)
  {
    CurveRises(t.pole, t.episodePeak, Max(t.episodePeak, Max(windowImpulse, impulse)));
    hide Curve;
    if impulse <= 0.0 {
      NoDamageBelowOnset(t.pole);
    }
  }

  lemma NoDamageBelowOnset(pole: bool)
    ensures Curve(pole, 0.0) == 0.0
  {
  }

  /** The target with its window brought up to date and nothing pending. */
  function Windowed(t: Target, dt: real): Target {
    WithWindow(t.(pendingImpulse := 0.0), NextWindow(t.window, dt, t.pendingImpulse))
  }

  /** One tick of one target: the window is brought up to date first, then the episode. */
  function Ticked(t: Target, dt: real): Target {
    AfterTick(Windowed(t, dt), Windowed(t, dt).windowImpulse, t.pendingImpulse, dt)
  }

  /** A tick keeps the target valid; its damage never falls, and its window is that of the filed impulses. */
  lemma {:induction false} TickedIsValid(t: Target, dt: real)
    requires ValidTarget(t) && ValidWindow(t) && dt >= 0.0
    ensures var next := Ticked(t, dt);
      && ValidTarget(next) && ValidWindow(next) && next.pendingImpulse == 0.0 && next.damage >= t.damage
      && next.pole == t.pole && next.window == NextWindow(t.window, dt, t.pendingImpulse)
      && 0.0 <= next.windowImpulse <= t.windowImpulse + t.pendingImpulse
      && next.windowDuration >= Min(t.windowDuration + dt, CONTACT_WINDOW_S - EPSILON)
  {
    hide Curve, NextWindow, DurationOf, ImpulseOf, NotNegative;
    NextWindowSums(t.window, dt, t.pendingImpulse);
    GoodSums(NextWindow(t.window, dt, t.pendingImpulse));
    DamageNeverFalls(Windowed(t, dt), Windowed(t, dt).windowImpulse, t.pendingImpulse, dt);
  }

  lemma {:induction false} GoodSums(window: seq<ContactInterval>)
    requires GoodWindow(window)
    ensures NotNegative(window) && ImpulseOf(window) >= 0.0
  {
    SumsNotNegative(window);
  }

  lemma StillValid(t: Target)
    requires ValidTarget(t) && ValidWindow(t)
    ensures ValidWindow(t.(pendingImpulse := 0.0)) && t.pendingImpulse >= 0.0
  {
  }

  method TickTarget(t: Target, dt: real) returns (next: Target)
    requires ValidTarget(t) && ValidWindow(t) && 0.0 <= dt
    ensures next == Ticked(t, dt) && ValidTarget(next) && ValidWindow(next) && next.damage >= t.damage
  {
    TickedIsValid(t, dt);
    hide Curve, NextWindow, DurationOf, ImpulseOf, NotNegative, ValidTarget, ValidWindow;
    var impulse := t.pendingImpulse;
    StillValid(t);
    next := UpdateWindow(t.(pendingImpulse := 0.0), dt, impulse);
    if impulse > 0.0 {
      next := next.(quiet := 0.0, episodePeak := Max(next.episodePeak, Max(next.windowImpulse, impulse)));
      var episodeDamage := Curve(next.pole, next.episodePeak);
      var added := Max(0.0, episodeDamage - next.episodeDamage);
      if added > EPSILON && (!next.pole || next.damage < 100.0) {
        next := next.(damage := Min(100.0, next.damage + added));
        if !next.episodeHasEvent {
          if next.eventSequence < MAXIMUM_EVENT_SEQUENCE {
            next := next.(eventSequence := next.eventSequence + 1);
          }
          next := next.(episodeHasEvent := true);
        }
        if next.pole && next.damage + EPSILON >= 100.0 {
          next := next.(damage := 100.0, disabled := true, breakawayReleased := true);
        }
      }
      next := next.(episodeDamage := episodeDamage);
    } else {
      next := next.(quiet := Min(CONTACT_WINDOW_S, next.quiet + dt));
      if next.quiet + EPSILON >= CONTACT_WINDOW_S {
        next := next.(episodePeak := 0.0, episodeDamage := 0.0, episodeHasEvent := false);
      }
    }
  }

  ghost predicate AllValid(targets: seq<Target>) {
    forall i :: 0 <= i < |targets| ==> ValidTarget(targets[i]) && ValidWindow(targets[i])
  }

  /** What a tick does to each target; a paused or invalid one drops what is pending and heals nothing. */
  function TickedOrPaused(t: Target, dt: real, enabled: bool): Target {
    if enabled && 0.0 <= dt <= MAXIMUM_TICK_S then Ticked(t, dt) else t.(pendingImpulse := 0.0)
  }

  method Tick(targets: seq<Target>, dt: real, enabled: bool) returns (next: seq<Target>, motionEnabled: bool)
    requires AllValid(targets)
    ensures AllValid(next) && |next| == |targets| && (motionEnabled <==> enabled && 0.0 <= dt <= MAXIMUM_TICK_S)
    ensures forall i :: 0 <= i < |targets| ==> next[i] == TickedOrPaused(targets[i], dt, enabled)
    ensures forall i :: 0 <= i < |targets| ==> next[i].damage >= targets[i].damage
  {
    hide Ticked, ValidTarget, ValidWindow;
    next, motionEnabled := [], enabled && 0.0 <= dt <= MAXIMUM_TICK_S;
    for i := 0 to |targets|
      invariant AllValid(next) && |next| == i
      invariant forall k :: 0 <= k < i ==> next[k] == TickedOrPaused(targets[k], dt, enabled)
      invariant forall k :: 0 <= k < i ==> next[k].damage >= targets[k].damage
    {
      DroppedIsValid(targets[i]);
      var target := targets[i].(pendingImpulse := 0.0);
      if motionEnabled {
        target := TickTarget(targets[i], dt);
      }
      next := next + [target];
    }
  }

  lemma DroppedIsValid(t: Target)
    requires ValidTarget(t) && ValidWindow(t)
    ensures ValidTarget(t.(pendingImpulse := 0.0)) && ValidWindow(t.(pendingImpulse := 0.0))
  {
  }

  /** A contact adds to what the next tick takes; a fallen pole takes no more. */
  function Recorded(t: Target, impulse: real): Target {
    if impulse <= 0.0 || (t.pole && t.disabled) then t
    else t.(pendingImpulse :=
      Min(MAXIMUM_CONTACT_IMPULSE_N_S, t.pendingImpulse + Min(impulse, MAXIMUM_CONTACT_IMPULSE_N_S)))
  }
}
