/** Runs from a new pole that show where damage, threshold and breakaway budget part. */
module PoleRuns {
  import opened Planar
  import opened ContactWindow
  import opened StructureDamage
  import opened PoleCollapse
  import opened DamageRuns

  lemma OneMoreEvent(pole: bool, events: seq<DamageEvent>, k: nat)
    requires k < |events|
    ensures State(pole, events, k + 1) == After(State(pole, events, k), events[k])
    ensures State(pole, events, 0) == NewTarget(pole)
  {
  }

  lemma {:induction false} ShortSums(first: ContactInterval, second: ContactInterval, third: ContactInterval)
    ensures DurationOf([first]) == first.duration && ImpulseOf([first]) == first.impulse
    ensures DurationOf([first, second]) == first.duration + second.duration
    ensures ImpulseOf([first, second]) == first.impulse + second.impulse
    ensures DurationOf([first, second, third]) == first.duration + second.duration + third.duration
    ensures ImpulseOf([first, second, third]) == first.impulse + second.impulse + third.impulse
  {
    assert [first][1..] == [];
    AppendedSums([first], second);
    AppendedSums([first, second], third);
    assert [first] + [second] == [first, second] && [first, second] + [third] == [first, second, third];
  }

  /** While no more than a quarter second is filed, a tick only files. */
  lemma {:induction false} EarlyWindow(window: seq<ContactInterval>, dt: real, impulse: real)
    requires dt > 0.0 && impulse >= 0.0 && |window| < MAXIMUM_WINDOW_INTERVALS
    requires DurationOf(window) + dt <= CONTACT_WINDOW_S
    ensures NextWindow(window, dt, impulse) == window + [ContactInterval(dt, impulse)]
  {
    FiledSums(window, dt, impulse);
    hide DurationOf, ImpulseOf;
  }

  // ---- One blow on a new pole ----

  /** A new pole struck once. */
  function Blow(impulse: real, dt: real): seq<DamageEvent> {
    [Hit(impulse), Elapse(dt, true)]
  }

  lemma {:induction false} AfterBlow(events: seq<DamageEvent>, impulse: real, dt: real)
    requires |events| >= 2 && events[0] == Hit(impulse) && events[1] == Elapse(dt, true)
    requires 0.0 < impulse <= MAXIMUM_CONTACT_IMPULSE_N_S && 0.0 < dt <= CONTACT_WINDOW_S
    ensures var struck := WithWindow(NewTarget(true), [ContactInterval(dt, impulse)]);
      && State(true, events, 2) == AfterContact(struck, impulse, impulse)
      && struck.windowImpulse == impulse && struck.windowDuration == dt
  {
    hide Curve, AfterContact, NextWindow;
    OneMoreEvent(true, events, 0);
    OneMoreEvent(true, events, 1);
    assert [] + [ContactInterval(dt, impulse)] == [ContactInterval(dt, impulse)];
    EarlyWindow([], dt, impulse);
    ShortSums(ContactInterval(dt, impulse), ContactInterval(dt, impulse), ContactInterval(dt, impulse));
  }

  lemma CurveNearTheEnds()
    ensures 100.0 - EPSILON < Curve(true, POLE_COLLAPSE_N_S - 0.00000001) < 100.0
    ensures 0.0 < Curve(true, POLE_DAMAGE_ONSET_N_S + 0.00000001) <= EPSILON
    ensures Curve(true, 0.0) == 0.0
  {
  }

  /** A new pole struck just below its threshold collapses, with more damage than the curve gives. */
  lemma {:induction false} CollapseRoundsUp()
    ensures var peak := POLE_COLLAPSE_N_S - 0.00000001;
      var next := State(true, Blow(peak, 0.1), 2);
      && peak < Threshold(NewTarget(true))
      && next.damage == 100.0 && next.disabled && next.damage > Curve(true, peak)
  {
    hide Curve, State, DurationOf, ImpulseOf, NextWindow;
    CurveNearTheEnds();
    var peak := POLE_COLLAPSE_N_S - 0.00000001;
    AfterBlow(Blow(peak, 0.1), peak, 0.1);
  }

  /** One faint contact is enough to put the episode's damage above the total. */
  lemma {:induction false} CreepBreaksTheCondition()
    ensures var next := State(true, Blow(POLE_DAMAGE_ONSET_N_S + 0.00000001, 0.1), 2);
      && Standing(next) && next.damage == 0.0 && next.episodeDamage > next.damage
  {
    hide Curve, State, DurationOf, ImpulseOf, NextWindow;
    CurveNearTheEnds();
    var peak := POLE_DAMAGE_ONSET_N_S + 0.00000001;
    AfterBlow(Blow(peak, 0.1), peak, 0.1);
    RunStaysValid(true, Blow(peak, 0.1), 2);
  }

  // ---- Two faint contacts ----

  /** Each creeping step rises by less than the tolerance, so none is applied. */
  const CREEP: real := 0.00000002025

  const CREEPING: seq<DamageEvent> :=
    [Hit(POLE_DAMAGE_ONSET_N_S + CREEP), Elapse(0.05, true), Hit(CREEP), Elapse(0.05, true)]

  lemma CurveWhileCreeping()
    ensures Curve(true, POLE_DAMAGE_ONSET_N_S + CREEP) == 0.0000000009
    ensures Curve(true, POLE_DAMAGE_ONSET_N_S + 2.0 * CREEP) == 0.0000000018
    ensures Curve(true, 0.0) == 0.0
  {
  }

  lemma {:induction false} AfterCreeping()
    ensures var t := State(true, CREEPING, 4);
      && t.damage == 0.0 && !t.disabled && t.episodeDamage == 0.0000000018
      && t.episodePeak == POLE_DAMAGE_ONSET_N_S + 2.0 * CREEP
  {
    hide Curve, NextWindow, DurationOf, ImpulseOf, State;
    var first, second := ContactInterval(0.05, POLE_DAMAGE_ONSET_N_S + CREEP), ContactInterval(0.05, CREEP);
    CurveWhileCreeping();
    AfterBlow(CREEPING, POLE_DAMAGE_ONSET_N_S + CREEP, 0.05);
    OneMoreEvent(true, CREEPING, 2);
    OneMoreEvent(true, CREEPING, 3);
    ShortSums(first, second, second);
    EarlyWindow([first], 0.05, CREEP);
    assert [first] + [second] == [first, second];
  }

  /**
   * After two creeping contacts no further contact of the episode brings the pole down, however strong, although twice
   * the collapse impulse is far beyond the threshold.
   */
  lemma {:induction false} CreepingPoleSurvivesAnyBlow(windowImpulse: real, impulse: real)
    ensures var t := State(true, CREEPING, 4);
      var struck := AfterContact(t, windowImpulse, impulse);
      && Standing(t) && Threshold(t) < 2.0 * POLE_COLLAPSE_N_S
      && struck.damage < 100.0 && !struck.disabled
  {
    hide Curve, State, AfterContact;
    AfterCreeping();
    RunStaysValid(true, CREEPING, 4);
    TooFarBehind(State(true, CREEPING, 4), windowImpulse, impulse);
  }

  // ---- A peak older than the window ----

  /** A heavy blow, quiet for most of the window, and a weaker blow that spends the rest of the budget. */
  const LATE_BLOW: seq<DamageEvent> :=
    [Hit(2250.0), Elapse(0.01, true), Elapse(0.2, true), Hit(600.0), Release, Elapse(0.05, true)]

  lemma CurveOfTheBlow()
    ensures 88.0 < Curve(true, 2250.0) < 89.0 && Curve(true, 0.0) == 0.0
  {
  }

  lemma {:induction false} BeforeTheLateBlow()
    ensures var t := State(true, LATE_BLOW, 3);
      && t.window == [ContactInterval(0.01, 2250.0), ContactInterval(0.2, 0.0)] && t.pendingImpulse == 0.0
      && t.damage == t.episodeDamage == Curve(true, 2250.0) && t.episodePeak == 2250.0
      && !t.disabled && !t.breakawayReleased && t.pole
  {
    hide Curve, NextWindow, DurationOf, ImpulseOf, State;
    CurveOfTheBlow();
    AfterBlow(LATE_BLOW, 2250.0, 0.01);
    OneMoreEvent(true, LATE_BLOW, 2);
    var first, second := ContactInterval(0.01, 2250.0), ContactInterval(0.2, 0.0);
    ShortSums(first, second, second);
    EarlyWindow([first], 0.2, 0.0);
    assert [first] + [second] == [first, second];
  }

  lemma {:induction false} LateWindow()
    ensures NextWindow([ContactInterval(0.01, 2250.0), ContactInterval(0.2, 0.0)], 0.05, 600.0)
         == [ContactInterval(0.2, 0.0), ContactInterval(0.05, 600.0)]
  {
    var first, second, third := ContactInterval(0.01, 2250.0), ContactInterval(0.2, 0.0), ContactInterval(0.05, 600.0);
    ShortSums(first, second, third);
    assert [first, second] + [third] == [first, second, third];
    assert [first, second, third][1..] == [second, third];
    TrimOnce([first, second, third], 0.01);
    TrimmedIsDone([second, third], 0.0);
    hide DurationOf, ImpulseOf;
  }

  /**
   * The peak outlives the window: the second blow spends the whole budget and the solver releases the pole, but the
   * window no longer holds the first, so the damage model leaves the pole standing.
   */
  lemma {:induction false} ReleasedButStanding()
    ensures var before, end := State(true, LATE_BLOW, 3), State(true, LATE_BLOW, 6);
      && Standing(before) && before.episodeDamage <= before.damage && !before.breakawayReleased
      && Threshold(before) == POLE_COLLAPSE_N_S && BreakawayImpulse(before) == 250.0
      && end.windowImpulse == 600.0 && !RoundsUp(before, 600.0, 600.0) && !TooSmallToCount(before, 600.0, 600.0)
      && end.breakawayReleased && !end.disabled && end.damage == before.damage < 100.0
  {
    hide Curve, NextWindow, DurationOf, ImpulseOf, State;
    CurveOfTheBlow();
    BeforeTheLateBlow();
    RunStaysValid(true, LATE_BLOW, 3);
    OneMoreEvent(true, LATE_BLOW, 3);
    OneMoreEvent(true, LATE_BLOW, 4);
    OneMoreEvent(true, LATE_BLOW, 5);
    LateWindow();
    var second, third := ContactInterval(0.2, 0.0), ContactInterval(0.05, 600.0);
    ShortSums(second, third, third);
  }
}
