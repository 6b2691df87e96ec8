/** When exactly a contact brings a signal pole down, and what that means for its breakaway budget. */
module PoleCollapse {
  import opened Planar
  import opened ContactWindow
  import opened StructureDamage

  ghost predicate Standing(t: Target) {
    ValidTarget(t) && t.pole && t.damage < 100.0
  }

  /** Full damage missed by no more than the rounding, in a rise large enough to be applied at all. */
  predicate RoundsUp(t: Target, windowImpulse: real, impulse: real) {
    var added := RiseTo(t, PeakAfter(t, windowImpulse, impulse));
    t.pole && added > EPSILON && t.damage < 100.0 && 100.0 - EPSILON <= t.damage + added < 100.0
  }

  /** Full damage reached, but by a rise too small to be applied. */
  predicate TooSmallToCount(t: Target, windowImpulse: real, impulse: real) {
    var added := RiseTo(t, PeakAfter(t, windowImpulse, impulse));
    added <= EPSILON && t.damage + added >= 100.0
  }

  /** A contact adds at most the rise of the curve, exactly unless the collapse rounds up. */
  lemma {:induction false} GainIsTheRiseUnlessRounded(t: Target, windowImpulse: real, impulse: real)
    requires ValidTarget(t)
    ensures AfterContact(t, windowImpulse, impulse).damage
            <= t.damage + RiseTo(t, PeakAfter(t, windowImpulse, impulse))
         <==> !RoundsUp(t, windowImpulse, impulse)
    ensures AfterContact(t, windowImpulse, impulse).damage
            <= t.damage + RiseTo(t, PeakAfter(t, windowImpulse, impulse)) + EPSILON
    ensures RoundsUp(t, windowImpulse, impulse) ==>
      AfterContact(t, windowImpulse, impulse).damage == 100.0 && AfterContact(t, windowImpulse, impulse).disabled
  {
    hide Curve;
  }

  /** The code's own guard of the collapse. */
  lemma {:induction false} CollapseIsExact(t: Target, windowImpulse: real, impulse: real)
    requires Standing(t)
    ensures var next, added := AfterContact(t, windowImpulse, impulse), RiseTo(t, PeakAfter(t, windowImpulse, impulse));
      && (next.damage == 100.0 <==> added > EPSILON && t.damage + added >= 100.0 - EPSILON)
      && (next.disabled <==> next.damage == 100.0)
  {
    hide Curve;
  }

  // ---- The breakaway budget ----

  /** The base gives way once the impulse that would stop the striker is within this of the budget. */
  const RELEASE_TOLERANCE_N_S: real := 0.000000001

  function Threshold(t: Target): real {
    POLE_DAMAGE_ONSET_N_S + (100.0 - t.damage + t.episodeDamage) / 100.0 * (POLE_COLLAPSE_N_S - POLE_DAMAGE_ONSET_N_S)
  }

  function BreakawayImpulse(t: Target): real {
    Max(LEAST_BREAKAWAY_N_S, Threshold(t) - t.episodePeak)
  }

  lemma CurveReaches(peak: real, need: real)
    requires 0.0 < need <= 100.0
    ensures Curve(true, peak) >= need <==>
      peak >= POLE_DAMAGE_ONSET_N_S + need / 100.0 * (POLE_COLLAPSE_N_S - POLE_DAMAGE_ONSET_N_S)
  {
  }

  lemma CurveIsFull(peak: real)
    ensures 0.0 <= Curve(true, peak) <= 100.0
  {
  }

  lemma {:induction false} ThresholdReached(t: Target, peak: real)
    requires Standing(t) && t.episodeDamage <= t.damage
    ensures t.damage + RiseTo(t, peak) >= 100.0 <==> peak >= Threshold(t)
  {
    CurveIsFull(t.episodePeak);
    CurveReaches(peak, 100.0 - t.damage + t.episodeDamage);
    hide Curve;
  }

  /** The threshold marks full damage at every peak exactly when the episode's damage does not exceed the total. */
  lemma {:induction false} ThresholdIsExact(t: Target)
    requires Standing(t)
    ensures (forall peak :: peak >= t.episodePeak ==> (t.damage + RiseTo(t, peak) >= 100.0 <==> peak >= Threshold(t)))
       <==> t.episodeDamage <= t.damage
  {
    hide Curve, RiseTo, Threshold;
    if t.episodeDamage <= t.damage {
      forall peak
        ensures t.damage + RiseTo(t, peak) >= 100.0 <==> peak >= Threshold(t)
      {
        ThresholdReached(t, peak);
      }
    } else {
      var peak := Max(Threshold(t), t.episodePeak);
      NeverFull(t, peak);
      assert peak >= t.episodePeak && peak >= Threshold(t);
    }
  }

  /** An episode whose small rises were not applied cannot reach full damage any more. */
  lemma {:induction false} NeverFull(t: Target, peak: real)
    requires Standing(t) && t.episodeDamage > t.damage
    ensures t.damage + RiseTo(t, peak) < 100.0
  {
    CurveIsFull(peak);
    hide Curve;
  }

  /**
   * The budget given to the collision solver against what the damage model really does: a standing pole collapses in a
   * contact exactly when the peak reaches the threshold, except for a collapse rounded up just below it and a last rise
   * too small to be applied.
   */
  lemma {:induction false} BudgetIsTheDamageLimit(t: Target, windowImpulse: real, impulse: real)
    requires Standing(t) && t.episodeDamage <= t.damage
    ensures var peak := PeakAfter(t, windowImpulse, impulse);
      (AfterContact(t, windowImpulse, impulse).damage == 100.0 <==> peak >= Threshold(t))
      <==> !RoundsUp(t, windowImpulse, impulse) && !TooSmallToCount(t, windowImpulse, impulse)
    ensures BreakawayImpulse(t) > 0.0
    ensures PeakAfter(t, windowImpulse, impulse) - t.episodePeak >= BreakawayImpulse(t) ==>
      PeakAfter(t, windowImpulse, impulse) >= Threshold(t)
  {
    CollapseIsExact(t, windowImpulse, impulse);
    ThresholdReached(t, PeakAfter(t, windowImpulse, impulse));
    hide Curve, Threshold, AfterContact, RiseTo, PeakAfter;
  }

  /**
   * With the episode's damage above the total the threshold means nothing: only rounding can still bring the pole down.
   */
  lemma {:induction false} OnlyRoundingCollapsesAfterCreep(t: Target, windowImpulse: real, impulse: real)
    requires Standing(t) && t.episodeDamage > t.damage
    ensures AfterContact(t, windowImpulse, impulse).damage == 100.0 <==> RoundsUp(t, windowImpulse, impulse)
  {
    CollapseIsExact(t, windowImpulse, impulse);
    NeverFull(t, PeakAfter(t, windowImpulse, impulse));
    hide Curve, AfterContact, RiseTo, PeakAfter;
  }

  /** Behind the episode by more than the rounding, no contact of the episode brings the pole down. */
  lemma {:induction false} TooFarBehind(t: Target, windowImpulse: real, impulse: real)
    requires Standing(t) && t.episodeDamage > t.damage + EPSILON && !t.disabled
    ensures var next := AfterContact(t, windowImpulse, impulse);
      next.damage < 100.0 && !next.disabled
  {
    CurveIsFull(PeakAfter(t, windowImpulse, impulse));
    OnlyRoundingCollapsesAfterCreep(t, windowImpulse, impulse);
    CollapseIsExact(t, windowImpulse, impulse);
    hide Curve, AfterContact, PeakAfter;
  }

  /**
   * A contact that spends the whole budget, up to the solver's tolerance, releases the pole from its base. Outside the
   * two roundings the damage model brings the pole down with it exactly when the impulse in the window reaches the
   * threshold, or the peak already had.
   */
  lemma {:induction false} SpentBudgetCollapsesExactly(t: Target, windowImpulse: real, impulse: real)
    requires Standing(t) && t.episodeDamage <= t.damage && impulse + RELEASE_TOLERANCE_N_S >= BreakawayImpulse(t)
    requires !RoundsUp(t, windowImpulse, impulse) && !TooSmallToCount(t, windowImpulse, impulse)
    ensures AfterContact(t, windowImpulse, impulse).damage == 100.0
      <==> Max(windowImpulse, impulse) >= Threshold(t) || t.episodePeak >= Threshold(t)
    ensures impulse >= BreakawayImpulse(t) && windowImpulse >= t.episodePeak + impulse ==>
      AfterContact(t, windowImpulse, impulse).damage == 100.0
  {
    BudgetIsTheDamageLimit(t, windowImpulse, impulse);
    hide Curve, Threshold, AfterContact, RoundsUp, TooSmallToCount;
  }

  /**
   * With `kept` still in the window from before, every impulse that spends the budget reaches the threshold exactly
   * when `kept` is no less than the episode's peak, or no more than the least budget is missing: once part of the peak
   * has left the window, a spent budget is not enough.
   */
  lemma {:induction false} BudgetNeedsThePeakInTheWindow(t: Target, kept: real)
    requires kept >= 0.0 && t.episodePeak < Threshold(t)
    ensures (forall impulse :: impulse >= BreakawayImpulse(t) ==> Reaches(t, kept, impulse))
      <==> kept >= t.episodePeak || kept + LEAST_BREAKAWAY_N_S >= Threshold(t)
  {
    hide Threshold;
    var least := BreakawayImpulse(t);
    assert Reaches(t, kept, least) <==> kept + least >= Threshold(t);
  }

  /** The impulse takes the peak to the threshold when `kept` is still in the window. */
  predicate Reaches(t: Target, kept: real, impulse: real) {
    PeakAfter(t, kept + impulse, impulse) >= Threshold(t)
  }
}
