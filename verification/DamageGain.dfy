/** How much damage contacts really do: exactly in one contact, and from below over whole episodes and runs. */
module DamageGain {
  import opened Planar
  import opened ContactWindow
  import opened StructureDamage
  import opened DamageRuns

  // ---- The damage curve ----

  lemma {:induction false} ClampedLine(x: real, low: real, high: real)
    requires low < high
    ensures x <= low ==> Clamp((x - low) / (high - low), 0.0, 1.0) == 0.0
    ensures x >= high ==> Clamp((x - low) / (high - low), 0.0, 1.0) == 1.0
    ensures low <= x <= high ==> Times(Clamp((x - low) / (high - low), 0.0, 1.0), high - low) == x - low
  {
    var width := high - low;
    var share := (x - low) / width;
    QuotientTimes(x - low, width);
    TimesCommutes(share, width);
    TimesOrder(width, share, 1.0);
    TimesOrder(width, 1.0, share);
    TimesOne(width);
    hide Times;
  }

  /** Poles: nothing up to 250 N s, everything from 2500 N s, linear between; buildings: 900 and 12000 N s. */
  lemma {:induction false} CurveIsPinned(pole: bool, peak: real)
    ensures var onset, full := if pole then 250.0 else 900.0, if pole then 2500.0 else 12000.0;
      && (peak <= onset ==> Curve(pole, peak) == 0.0)
      && (peak >= full ==> Curve(pole, peak) == 100.0)
      && (onset <= peak <= full ==> Times(Curve(pole, peak), full - onset) == 100.0 * (peak - onset))
  {
    var onset, full := if pole then 250.0 else 900.0, if pole then 2500.0 else 12000.0;
    ClampedLine(peak, onset, full);
    Hundredfold(Clamp((peak - onset) / (full - onset), 0.0, 1.0), full - onset);
    hide Times;
  }

  lemma Hundredfold(x: real, y: real)
    ensures Times(100.0 * x, y) == 100.0 * Times(x, y)
  {
  }

  // ---- One contact ----

  /** How far a contact raises the curve above the episode so far. */
  function Rise(t: Target, windowImpulse: real, impulse: real): real {
    Max(0.0, Curve(t.pole, Max(t.episodePeak, Max(windowImpulse, impulse))) - t.episodeDamage)
  }

  /** The contact counts: its rise is more than the tolerance, and a pole is not down yet. */
  predicate Damaging(t: Target, windowImpulse: real, impulse: real) {
    Rise(t, windowImpulse, impulse) > 0.000000001 && (t.pole ==> t.damage < 100.0)
  }

  /**
   * A damaging contact adds exactly its rise, up to 100, but for a pole within the rounding of 100, which goes down;
   * any other contact adds nothing. The first damaging contact of an episode takes the next event number.
   */
  lemma {:induction false} ContactGainIsExact(t: Target, windowImpulse: real, impulse: real)
    ensures var next, total := AfterContact(t, windowImpulse, impulse), t.damage + Rise(t, windowImpulse, impulse);
      && next.damage == (if !Damaging(t, windowImpulse, impulse) then t.damage
                         else if t.pole && total >= 100.0 - 0.000000001 then 100.0
                         else Min(100.0, total))
      && next.eventSequence == (if Damaging(t, windowImpulse, impulse) && !t.episodeHasEvent
                                   && t.eventSequence < 0xFFFF_FFFF
                                then t.eventSequence + 1 else t.eventSequence)
      && next.episodeHasEvent == (t.episodeHasEvent || Damaging(t, windowImpulse, impulse))
      && next.episodePeak == Max(t.episodePeak, Max(windowImpulse, impulse))
      && next.episodeDamage == Curve(t.pole, next.episodePeak) && next.quiet == 0.0
  {
    hide Curve;
  }

  // ---- One episode, from below ----

  /** A tick of the run brings a contact. */
  predicate HasContact(t: Target, event: DamageEvent) {
    Runs(event) && t.pendingImpulse > 0.0
  }

  function RiseAt(t: Target, event: DamageEvent): real {
    if HasContact(t, event) then Rise(t, Windowed(t, event.dt).windowImpulse, t.pendingImpulse) else 0.0
  }

  /** The contacts of the present episode whose rise was too small to be added. */
  function Uncounted(pole: bool, events: seq<DamageEvent>, k: nat): nat
    requires k <= |events|
  {
    if k == 0 || State(pole, events, k).episodePeak == 0.0 then 0
    else
      var rise := RiseAt(State(pole, events, k - 1), events[k - 1]);
      Uncounted(pole, events, k - 1) + if 0.0 < rise <= 0.000000001 then 1 else 0
  }

  /** The damage is at least what the curve gives since the episode began, less the tolerance per uncounted rise. */
  predicate AtLeastTheCurve(t: Target, start: real, uncounted: nat) {
    t.damage >= Min(100.0, start + Curve(t.pole, t.episodePeak) - 0.000000001 * uncounted as real)
  }

  lemma {:induction false} ContactAddsTheCurve(
    t: Target, windowImpulse: real, impulse: real, start: real, uncounted: nat)
    requires ValidTarget(t) && AtLeastTheCurve(t, start, uncounted)
    ensures var rise := Rise(t, windowImpulse, impulse);
      AtLeastTheCurve(AfterContact(t, windowImpulse, impulse), start,
        uncounted + if 0.0 < rise <= 0.000000001 then 1 else 0)
  {
    ContactGainIsExact(t, windowImpulse, impulse);
    CurveRises(t.pole, t.episodePeak, Max(t.episodePeak, Max(windowImpulse, impulse)));
    hide Curve, AfterContact;
  }

  lemma {:induction false} StepAddsTheCurve(t: Target, event: DamageEvent, start: real, uncounted: nat)
    requires ValidTarget(t) && ValidWindow(t) && AtLeastTheCurve(t, start, uncounted)
    ensures var next, rise := After(t, event), RiseAt(t, event);
      && (next.episodePeak != 0.0 ==>
            AtLeastTheCurve(next, start, uncounted + if 0.0 < rise <= 0.000000001 then 1 else 0))
      && (next.episodePeak == 0.0 ==> AtLeastTheCurve(next, next.damage, 0))
  {
    hide NextWindow, DurationOf, ImpulseOf, Curve, AfterContact, GoodWindow, NotNegative, Rise;
    NoDamageBelowOnset(t.pole);
    StepStaysValid(t, event);
    if Runs(event) {
      WindowedIsValid(t, event.dt);
      SameRise(t, Windowed(t, event.dt), start, uncounted, Windowed(t, event.dt).windowImpulse, t.pendingImpulse);
      ContactAddsTheCurve(Windowed(t, event.dt), Windowed(t, event.dt).windowImpulse, t.pendingImpulse, start,
        uncounted);
    }
  }

  lemma SameRise(
    t: Target, windowed: Target, start: real, uncounted: nat, windowImpulse: real, impulse: real)
    requires windowed == t.(pendingImpulse := 0.0, window := windowed.window, windowDuration := windowed.windowDuration,
      windowImpulse := windowed.windowImpulse)
    ensures Rise(windowed, windowImpulse, impulse) == Rise(t, windowImpulse, impulse)
    ensures Damaging(windowed, windowImpulse, impulse) == Damaging(t, windowImpulse, impulse)
    ensures AtLeastTheCurve(windowed, start, uncounted) == AtLeastTheCurve(t, start, uncounted)
  {
  }

  /**
   * Over any run one episode adds at least the damage curve at its peak, less 1e-9 for each rise that was too small to
   * be added, until the damage is full.
   */
  lemma {:induction false} EpisodeAddsAtLeastTheCurve(pole: bool, events: seq<DamageEvent>, k: nat)
    requires k <= |events|
    ensures AtLeastTheCurve(State(pole, events, k), EpisodeStart(pole, events, k), Uncounted(pole, events, k))
  {
    hide ValidTarget, ValidWindow, After, AtLeastTheCurve, RiseAt;
    if k == 0 {
      NewTargetHasNone(pole);
    } else {
      RunStaysValid(pole, events, k - 1);
      EpisodeAddsAtLeastTheCurve(pole, events, k - 1);
      StepAddsTheCurve(State(pole, events, k - 1), events[k - 1], EpisodeStart(pole, events, k - 1),
        Uncounted(pole, events, k - 1));
    }
  }

  lemma {:induction false} NewTargetHasNone(pole: bool)
    ensures AtLeastTheCurve(NewTarget(pole), 0.0, 0)
  {
    NoDamageBelowOnset(pole);
    hide Curve;
  }

  // ---- Event numbers ----

  predicate DamagingAt(t: Target, event: DamageEvent) {
    HasContact(t, event) && Damaging(t, Windowed(t, event.dt).windowImpulse, t.pendingImpulse)
  }

  /** The present episode has had a damaging contact. */
  predicate HasDamaged(pole: bool, events: seq<DamageEvent>, k: nat)
    requires k <= |events|
  {
    k > 0 && State(pole, events, k).episodePeak != 0.0
    && (HasDamaged(pole, events, k - 1) || DamagingAt(State(pole, events, k - 1), events[k - 1]))
  }

  function DamagingEpisodes(pole: bool, events: seq<DamageEvent>, k: nat): nat
    requires k <= |events|
  {
    if k == 0 then 0
    else
      DamagingEpisodes(pole, events, k - 1)
      + if DamagingAt(State(pole, events, k - 1), events[k - 1]) && !HasDamaged(pole, events, k - 1) then 1 else 0
  }

  lemma {:induction false} StepCountsEvents(t: Target, event: DamageEvent)
    requires ValidTarget(t) && ValidWindow(t)
    ensures var next := After(t, event);
      && next.eventSequence == (if DamagingAt(t, event) && !t.episodeHasEvent && t.eventSequence < 0xFFFF_FFFF
                                then t.eventSequence + 1 else t.eventSequence)
      && (next.episodePeak != 0.0 ==> next.episodeHasEvent == (t.episodeHasEvent || DamagingAt(t, event)))
      && (next.episodePeak == 0.0 && t.episodePeak != 0.0 ==> !next.episodeHasEvent)
      && (next.episodePeak == 0.0 && t.episodePeak == 0.0 && !t.episodeHasEvent ==> !next.episodeHasEvent)
  {
    hide NextWindow, DurationOf, ImpulseOf, Curve, AfterContact, GoodWindow, NotNegative, Damaging;
    if Runs(event) {
      WindowedIsValid(t, event.dt);
      SameRise(t, Windowed(t, event.dt), 0.0, 0, Windowed(t, event.dt).windowImpulse, t.pendingImpulse);
      ContactGainIsExact(Windowed(t, event.dt), Windowed(t, event.dt).windowImpulse, t.pendingImpulse);
    }
  }

  /** Over any run the event number is the number of episodes with a damaging contact, up to its limit. */
  lemma {:induction false} OneEventPerDamagingEpisode(pole: bool, events: seq<DamageEvent>, k: nat)
    requires k <= |events|
    ensures var t, count := State(pole, events, k), DamagingEpisodes(pole, events, k);
      && t.episodeHasEvent == HasDamaged(pole, events, k)
      && t.eventSequence == if count <= 0xFFFF_FFFF then count else 0xFFFF_FFFF
  {
    hide ValidTarget, ValidWindow, After, DamagingAt;
    if k > 0 {
      OneEventPerDamagingEpisode(pole, events, k - 1);
      RunStaysValid(pole, events, k - 1);
      StepCountsEvents(State(pole, events, k - 1), events[k - 1]);
    }
  }

  // ---- Silence ----

  function QuietFor(t: Target, ticks: seq<real>): Target {
    if ticks == [] then t else AfterQuiet(QuietFor(t, ticks[..|ticks| - 1]), ticks[|ticks| - 1])
  }

  function Total(ticks: seq<real>): real {
    if ticks == [] then 0.0 else Total(ticks[..|ticks| - 1]) + ticks[|ticks| - 1]
  }

  lemma {:induction false} TotalNotNegative(ticks: seq<real>)
    requires forall i :: 0 <= i < |ticks| ==> ticks[i] >= 0.0
    ensures Total(ticks) >= 0.0
  {
    if ticks != [] {
      TotalNotNegative(ticks[..|ticks| - 1]);
    }
  }

  /** After a contact, silence ends the episode exactly once it has lasted a quarter second, up to the tolerance. */
  lemma {:induction false} SilenceEndsTheEpisode(t: Target, ticks: seq<real>)
    requires t.quiet == 0.0 && forall i :: 0 <= i < |ticks| ==> ticks[i] >= 0.0
    ensures var later := QuietFor(t, ticks);
      && later.quiet == Min(0.25, Total(ticks)) && later.damage == t.damage
      && (if Total(ticks) < 0.25 - 0.000000001
          then later.episodePeak == t.episodePeak && later.episodeDamage == t.episodeDamage
               && later.episodeHasEvent == t.episodeHasEvent
          else later.episodePeak == 0.0 && later.episodeDamage == 0.0 && !later.episodeHasEvent)
  {
    TotalNotNegative(ticks);
    if ticks != [] {
      var most := ticks[..|ticks| - 1];
      assert forall i :: 0 <= i < |most| ==> most[i] == ticks[i];
      SilenceEndsTheEpisode(t, most);
      TotalNotNegative(most);
    }
  }
}
