/** Whole runs of one target: every contact, tick, pause and release since it was new. */
module DamageRuns {
  import opened Planar
  import opened ContactWindow
  import opened StructureDamage
  import opened PoleCollapse

  /** A recorded contact, a tick, or the solver's release of the pole from its base. */
  datatype DamageEvent = Hit(impulse: real) | Elapse(dt: real, enabled: bool) | Release

  predicate Runs(event: DamageEvent) {
    event.Elapse? && event.enabled && 0.0 <= event.dt <= MAXIMUM_TICK_S
  }

  function After(t: Target, event: DamageEvent): Target {
    match event
    case Hit(impulse) => Recorded(t, impulse)
    case Elapse(dt, enabled) => TickedOrPaused(t, dt, enabled)
    case Release => t.(breakawayReleased := t.breakawayReleased || t.pole)
  }

  /** The target after the first `k` events of its life. */
  function State(pole: bool, events: seq<DamageEvent>, k: nat): Target
    requires k <= |events|
  {
    if k == 0 then NewTarget(pole) else After(State(pole, events, k - 1), events[k - 1])
  }

  lemma {:induction false} StepStaysValid(t: Target, event: DamageEvent)
    requires ValidTarget(t) && ValidWindow(t)
    ensures var next := After(t, event);
      ValidTarget(next) && ValidWindow(next) && next.damage >= t.damage && next.pole == t.pole
  {
    hide Curve, Ticked, NotNegative;
    if Runs(event) {
      TickedIsValid(t, event.dt);
    }
  }

  /** Along every run from a new target the target and its window stay valid, and damage never falls. */
  lemma {:induction false} RunStaysValid(pole: bool, events: seq<DamageEvent>, k: nat)
    requires k <= |events|
    ensures var t := State(pole, events, k);
      && ValidTarget(t) && ValidWindow(t) && t.pole == pole
      && (k > 0 ==> t.damage >= State(pole, events, k - 1).damage)
  {
    hide ValidTarget, ValidWindow, After;
    NewTargetIsValid(pole);
    if k > 0 {
      RunStaysValid(pole, events, k - 1);
      StepStaysValid(State(pole, events, k - 1), events[k - 1]);
    }
  }

  // ---- Impulse is conserved ----

  /** The impulse that a contact brings; a fallen pole takes none. */
  function Struck(t: Target, event: DamageEvent): real {
    if event.Hit? && event.impulse > 0.0 && !(t.pole && t.disabled) then event.impulse else 0.0
  }

  /** What an event takes away: beyond the limit of one tick, older than the window, or pending at a pause. */
  function Lost(t: Target, event: DamageEvent): real {
    match event
    case Hit(_) => Max(0.0, t.pendingImpulse + Struck(t, event) - MAXIMUM_CONTACT_IMPULSE_N_S)
    case Elapse(dt, _) =>
      if Runs(event) then ExpiredImpulse(t.window, dt, t.pendingImpulse) else t.pendingImpulse
    case Release => 0.0
  }

  function StruckInAll(pole: bool, events: seq<DamageEvent>, k: nat): real
    requires k <= |events|
  {
    if k == 0 then 0.0 else StruckInAll(pole, events, k - 1) + Struck(State(pole, events, k - 1), events[k - 1])
  }

  function LostInAll(pole: bool, events: seq<DamageEvent>, k: nat): real
    requires k <= |events|
  {
    if k == 0 then 0.0 else LostInAll(pole, events, k - 1) + Lost(State(pole, events, k - 1), events[k - 1])
  }

  /**
   * Over every run the impulse of all contacts is what is pending, what the window keeps, and what went beyond the
   * limit of a tick, has expired, or was dropped by a pause.
   */
  lemma {:induction false} RunConservesImpulse(pole: bool, events: seq<DamageEvent>, k: nat)
    requires k <= |events|
    ensures var t := State(pole, events, k);
      && StruckInAll(pole, events, k) == t.pendingImpulse + ImpulseOf(t.window) + LostInAll(pole, events, k)
      && t.windowImpulse == ImpulseOf(t.window)
  {
    hide ValidTarget, After, Lost, Struck, GoodWindow, NotNegative;
    RunStaysValid(pole, events, k);
    if k > 0 {
      RunConservesImpulse(pole, events, k - 1);
      RunStaysValid(pole, events, k - 1);
      StepConserves(State(pole, events, k - 1), events[k - 1]);
    }
  }

  lemma {:induction false} StepConserves(t: Target, event: DamageEvent)
    requires ValidTarget(t) && ValidWindow(t)
    ensures var next := After(t, event);
      t.pendingImpulse + ImpulseOf(t.window) + Struck(t, event)
      == next.pendingImpulse + ImpulseOf(next.window) + Lost(t, event) && Lost(t, event) >= 0.0
  {
    hide Curve, NotNegative, Ticked, ImpulseOf, NextWindow, ExpiredImpulse;
    if Runs(event) {
      TickedIsValid(t, event.dt);
      ExpiryConserves(t.window, event.dt, t.pendingImpulse);
    }
  }

  // ---- The window against the whole history ----

  /** Everything that was filed, as it was filed, up to event `k`. */
  function History(pole: bool, events: seq<DamageEvent>, k: nat): seq<ContactInterval>
    requires k <= |events|
  {
    if k == 0 then []
    else Filing(History(pole, events, k - 1), State(pole, events, k - 1), events[k - 1])
  }

  function Filing(history: seq<ContactInterval>, t: Target, event: DamageEvent): seq<ContactInterval> {
    if Runs(event) then NextHistory(history, event.dt, t.pendingImpulse) else history
  }

  ghost predicate MergesNothing(t: Target, event: DamageEvent) {
    Runs(event) ==> Unmerged(t.window, event.dt, t.pendingImpulse)
  }

  /** No tick of the run merges intervals. */
  ghost predicate NoMerges(pole: bool, events: seq<DamageEvent>, k: nat)
    requires k <= |events|
  {
    forall j: nat :: j < k ==> MergesNothing(State(pole, events, j), events[j])
  }

  lemma {:induction false} SameWindow(t: Target, event: DamageEvent)
    ensures After(t, event).window == if Runs(event) then NextWindow(t.window, event.dt, t.pendingImpulse) else t.window
  {
    hide Curve, NextWindow;
  }

  lemma {:induction false} FilingNotNegative(history: seq<ContactInterval>, t: Target, event: DamageEvent)
    requires NotNegative(history) && ValidTarget(t)
    ensures NotNegative(Filing(history, t, event))
  {
    hide NotNegative, Filed, Curve;
    if Runs(event) {
      FiledSums(history, event.dt, t.pendingImpulse);
    }
  }

  lemma {:induction false} HistoryNotNegative(pole: bool, events: seq<DamageEvent>, k: nat)
    requires k <= |events|
    ensures NotNegative(History(pole, events, k))
  {
    hide State, NotNegative, Filing, ValidTarget;
    if k == 0 {
      NothingIsNegative();
    } else {
      HistoryNotNegative(pole, events, k - 1);
      RunStaysValid(pole, events, k - 1);
      FilingNotNegative(History(pole, events, k - 1), State(pole, events, k - 1), events[k - 1]);
    }
  }

  lemma NothingIsNegative()
    ensures NotNegative([])
  {
  }

  lemma {:induction false} StepKeepsNewest(history: seq<ContactInterval>, t: Target, event: DamageEvent)
    requires ValidTarget(t) && ValidWindow(t) && Recent(t.window, history)
    ensures Recent(After(t, event).window, Filing(history, t, event))
  {
    hide Recent, Curve, NextWindow, Filed, After, GoodWindow;
    SameWindow(t, event);
    if Runs(event) {
      NextKeepsRecent(t.window, history, event.dt, t.pendingImpulse);
    }
  }

  /** Over every run, all but the oldest entry of the window are exactly the newest intervals of the history. */
  lemma {:induction false} WindowIsTheNewest(pole: bool, events: seq<DamageEvent>, k: nat)
    requires k <= |events|
    ensures Recent(State(pole, events, k).window, History(pole, events, k))
  {
    hide After, Filing, ValidTarget, ValidWindow;
    if k > 0 {
      WindowIsTheNewest(pole, events, k - 1);
      RunStaysValid(pole, events, k - 1);
      StepKeepsNewest(History(pole, events, k - 1), State(pole, events, k - 1), events[k - 1]);
    }
  }

  lemma {:induction false} StepKeepsCut(history: seq<ContactInterval>, t: Target, event: DamageEvent)
    requires ValidTarget(t) && ValidWindow(t) && NotNegative(history) && CutSuffix(t.window, history)
    requires MergesNothing(t, event)
    ensures CutSuffix(After(t, event).window, Filing(history, t, event))
  {
    hide CutSuffix, Curve, NextWindow, NextHistory, After, GoodWindow, NotNegative, Unmerged;
    SameWindow(t, event);
    if Runs(event) {
      NextKeepsSuffix(t.window, history, event.dt, t.pendingImpulse);
    }
  }

  lemma NothingIsCut()
    ensures CutSuffix([], [])
  {
  }

  lemma {:induction false} WindowStaysCut(pole: bool, events: seq<DamageEvent>, k: nat)
    requires k <= |events| && NoMerges(pole, events, k)
    ensures CutSuffix(State(pole, events, k).window, History(pole, events, k))
  {
    hide After, Filing, ValidTarget, ValidWindow, CutSuffix, NotNegative, MergesNothing;
    if k == 0 {
      NothingIsCut();
    } else {
      WindowStaysCut(pole, events, k - 1);
      RunStaysValid(pole, events, k - 1);
      HistoryNotNegative(pole, events, k - 1);
      StepKeepsCut(History(pole, events, k - 1), State(pole, events, k - 1), events[k - 1]);
    }
  }

  /**
   * Over every run without merges the window is exactly the end of the history, cut in proportion: it holds a quarter
   * second if that much was filed, and all of the impulse filed less than a quarter second ago.
   */
  lemma {:induction false} WindowIsTheCutHistory(pole: bool, events: seq<DamageEvent>, k: nat, from: nat)
    requires k <= |events| && NoMerges(pole, events, k) && from <= |History(pole, events, k)|
    ensures var t, history := State(pole, events, k), History(pole, events, k);
      && CutSuffix(t.window, history)
      && (DurationOf(history[from..]) < CONTACT_WINDOW_S - EPSILON ==> ImpulseOf(history[from..]) <= t.windowImpulse)
  {
    hide CutSuffix, NotNegative, State, History, DurationOf, ImpulseOf, ValidTarget, GoodWindow, NoMerges;
    WindowStaysCut(pole, events, k);
    HistoryNotNegative(pole, events, k);
    RunStaysValid(pole, events, k);
    GoodSums(State(pole, events, k).window);
    if DurationOf(History(pole, events, k)[from..]) < CONTACT_WINDOW_S - EPSILON {
      NewestIsKept(State(pole, events, k).window, History(pole, events, k), from);
    }
  }

  ghost predicate AllLong(history: seq<ContactInterval>) {
    forall i :: 0 <= i < |history| ==> history[i].duration >= FINEST_TICK_S
  }

  lemma LongFiling(history: seq<ContactInterval>, t: Target, event: DamageEvent)
    requires AllLong(history) && (Runs(event) ==> event.dt >= FINEST_TICK_S)
    ensures AllLong(Filing(history, t, event))
  {
  }

  lemma {:induction false} LongTicksDoNotMerge(history: seq<ContactInterval>, t: Target, event: DamageEvent)
    requires ValidTarget(t) && ValidWindow(t) && NotNegative(history) && CutSuffix(t.window, history)
    requires AllLong(history) && (Runs(event) ==> event.dt >= FINEST_TICK_S)
    ensures MergesNothing(t, event)
  {
    hide CutSuffix, Curve, NotNegative, Unmerged, GoodWindow;
    if Runs(event) {
      CoarseTicksDoNotMerge(t.window, history, event.dt, t.pendingImpulse);
    }
  }

  /** With ticks of at least 1/16000 s no run ever merges. */
  lemma {:induction false} CoarseRunsDoNotMerge(pole: bool, events: seq<DamageEvent>, k: nat)
    requires k <= |events| && forall j: nat :: j < k && Runs(events[j]) ==> events[j].dt >= FINEST_TICK_S
    ensures NoMerges(pole, events, k) && AllLong(History(pole, events, k))
  {
    hide State, Filing, CutSuffix, NotNegative, MergesNothing, ValidTarget, ValidWindow, AllLong;
    if k == 0 {
      NothingIsShort();
    } else {
      CoarseRunsDoNotMerge(pole, events, k - 1);
      WindowStaysCut(pole, events, k - 1);
      RunStaysValid(pole, events, k - 1);
      HistoryNotNegative(pole, events, k - 1);
      LongTicksDoNotMerge(History(pole, events, k - 1), State(pole, events, k - 1), events[k - 1]);
      LongFiling(History(pole, events, k - 1), State(pole, events, k - 1), events[k - 1]);
    }
  }

  lemma NothingIsShort()
    ensures AllLong([])
  {
  }

  // ---- One episode ----

  /** The damage at which the present episode began. */
  function EpisodeStart(pole: bool, events: seq<DamageEvent>, k: nat): real
    requires k <= |events|
  {
    var t := State(pole, events, k);
    if k == 0 || t.episodePeak == 0.0 then t.damage else EpisodeStart(pole, events, k - 1)
  }

  predicate RoundedAt(t: Target, event: DamageEvent) {
    Runs(event) && t.pendingImpulse > 0.0 && RoundsUp(t, Windowed(t, event.dt).windowImpulse, t.pendingImpulse)
  }

  /** Whether a collapse in the present episode was rounded up, judged by the state before each contact. */
  predicate EpisodeRounded(pole: bool, events: seq<DamageEvent>, k: nat)
    requires k <= |events|
  {
    k > 0 && State(pole, events, k).episodePeak != 0.0
    && (EpisodeRounded(pole, events, k - 1) || RoundedAt(State(pole, events, k - 1), events[k - 1]))
  }

  /** What holds of an episode that began at `start`. */
  ghost predicate EpisodeHolds(t: Target, start: real, rounded: bool) {
    && start <= t.damage
    && (if rounded then t.pole && t.damage == 100.0 && t.damage <= start + Curve(t.pole, t.episodePeak) + EPSILON
        else t.damage <= start + Curve(t.pole, t.episodePeak))
  }

  lemma {:induction false} ContactKeepsEpisode(
    t: Target, windowImpulse: real, impulse: real, start: real, rounded: bool)
    requires ValidTarget(t) && windowImpulse >= 0.0 && EpisodeHolds(t, start, rounded)
    ensures EpisodeHolds(AfterContact(t, windowImpulse, impulse), start, rounded || RoundsUp(t, windowImpulse, impulse))
  {
    GainIsTheRiseUnlessRounded(t, windowImpulse, impulse);
    CurveRises(t.pole, t.episodePeak, PeakAfter(t, windowImpulse, impulse));
    hide Curve;
  }

  lemma {:induction false} StepKeepsEpisode(t: Target, event: DamageEvent, start: real, rounded: bool)
    requires ValidTarget(t) && ValidWindow(t) && EpisodeHolds(t, start, rounded)
    ensures var next := After(t, event);
      && (next.episodePeak != 0.0 ==> EpisodeHolds(next, start, rounded || RoundedAt(t, event)))
      && (next.episodePeak == 0.0 ==> EpisodeHolds(next, next.damage, false))
  {
    hide NextWindow, DurationOf, ImpulseOf, Curve, RoundsUp, AfterContact, GoodWindow, NotNegative;
    StepStaysValid(t, event);
    NoDamageBelowOnset(t.pole);
    if Runs(event) {
      WindowedIsValid(t, event.dt);
      var windowed := Windowed(t, event.dt);
      SameEpisode(t, windowed, windowed.windowImpulse, t.pendingImpulse, start, rounded);
      ContactKeepsEpisode(windowed, windowed.windowImpulse, t.pendingImpulse, start, rounded);
    }
  }

  lemma {:induction false} WindowedIsValid(t: Target, dt: real)
    requires ValidTarget(t) && ValidWindow(t) && dt >= 0.0
    ensures ValidTarget(Windowed(t, dt)) && Windowed(t, dt).windowImpulse >= 0.0
  {
    hide NextWindow, DurationOf, ImpulseOf, Curve, NotNegative;
    NextWindowSums(t.window, dt, t.pendingImpulse);
    GoodSums(NextWindow(t.window, dt, t.pendingImpulse));
  }

  /** The window plays no part in the episode. */
  lemma {:induction false} SameEpisode(
    t: Target, windowed: Target, windowImpulse: real, impulse: real, start: real, rounded: bool)
    requires ValidTarget(t)
    requires windowed == t.(pendingImpulse := 0.0, window := windowed.window, windowDuration := windowed.windowDuration,
      windowImpulse := windowed.windowImpulse)
    ensures ValidTarget(windowed) && RoundsUp(windowed, windowImpulse, impulse) == RoundsUp(t, windowImpulse, impulse)
    ensures EpisodeHolds(windowed, start, rounded) == EpisodeHolds(t, start, rounded)
  {
    hide Curve;
  }

  lemma {:induction false} EpisodeInvariant(pole: bool, events: seq<DamageEvent>, k: nat)
    requires k <= |events|
    ensures EpisodeHolds(State(pole, events, k), EpisodeStart(pole, events, k), EpisodeRounded(pole, events, k))
  {
    hide ValidTarget, ValidWindow, After, EpisodeHolds, RoundedAt;
    if k == 0 {
      NewEpisode(pole);
    } else {
      RunStaysValid(pole, events, k - 1);
      EpisodeInvariant(pole, events, k - 1);
      StepKeepsEpisode(State(pole, events, k - 1), events[k - 1], EpisodeStart(pole, events, k - 1),
        EpisodeRounded(pole, events, k - 1));
    }
  }

  lemma {:induction false} NewEpisode(pole: bool)
    ensures EpisodeHolds(NewTarget(pole), 0.0, false)
  {
    NoDamageBelowOnset(pole);
    hide Curve;
  }

  /**
   * Over any run one contact episode adds at most the curve's value at its peak, exactly unless a collapse of this
   * episode was rounded up over the curve; and then the excess is at most the rounding.
   */
  lemma {:induction false} EpisodeAddsAtMostTheCurve(pole: bool, events: seq<DamageEvent>, k: nat)
    requires k <= |events|
    ensures var start, t := EpisodeStart(pole, events, k), State(pole, events, k);
      var limit := start + Curve(t.pole, t.episodePeak);
      && start <= t.damage <= limit + EPSILON
      && (t.damage <= limit <==> !(EpisodeRounded(pole, events, k) && limit < 100.0))
  {
    hide Curve, EpisodeRounded, EpisodeStart, State;
    EpisodeInvariant(pole, events, k);
  }
}
