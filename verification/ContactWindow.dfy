/** The sliding window of contact impulses: what is filed, what leaves, and what a whole history still keeps. */
module ContactWindow {
  import opened Planar

  const EPSILON: real := 0.000000001
  const CONTACT_WINDOW_S: real := 0.25
  const MAXIMUM_WINDOW_INTERVALS: nat := 4096

  datatype ContactInterval = ContactInterval(duration: real, impulse: real)

  // ---- Sums ----

  function DurationOf(window: seq<ContactInterval>): real {
    if window == [] then 0.0 else window[0].duration + DurationOf(window[1..])
  }

  function ImpulseOf(window: seq<ContactInterval>): real {
    if window == [] then 0.0 else window[0].impulse + ImpulseOf(window[1..])
  }

  lemma {:induction false} AppendedSums(window: seq<ContactInterval>, interval: ContactInterval)
    ensures DurationOf(window + [interval]) == DurationOf(window) + interval.duration
    ensures ImpulseOf(window + [interval]) == ImpulseOf(window) + interval.impulse
  {
    if window == [] {
      assert [interval][1..] == [];
    } else {
      AppendedSums(window[1..], interval);
      assert (window + [interval])[1..] == window[1..] + [interval];
    }
  }

  ghost predicate NotNegative(window: seq<ContactInterval>) {
    forall i :: 0 <= i < |window| ==> window[i].duration >= 0.0 && window[i].impulse >= 0.0
  }

  lemma {:induction false} SumsNotNegative(window: seq<ContactInterval>)
    requires NotNegative(window)
    ensures DurationOf(window) >= 0.0 && ImpulseOf(window) >= 0.0
  {
    if window != [] {
      SumsNotNegative(window[1..]);
    }
  }

  // ---- One tick ----

  /** Files one interval; a second impulse in the same instant joins the first. */
  function Filed(window: seq<ContactInterval>, dt: real, impulse: real): seq<ContactInterval> {
    var n := |window|;
    if dt == 0.0 && n > 0 && window[n - 1].duration == 0.0
    then window[..n - 1] + [window[n - 1].(impulse := window[n - 1].impulse + impulse)]
    else window + [ContactInterval(dt, impulse)]
  }

  /** The part of an interval that is left when its oldest `excess` seconds are taken off, impulse in proportion. */
  function Younger(interval: ContactInterval, excess: real): ContactInterval
    requires interval.duration != 0.0
  {
    ContactInterval(interval.duration - excess, interval.impulse - interval.impulse * excess / interval.duration)
  }

  /** The window without its oldest `excess` seconds: whole intervals, and the old part of the last one. */
  function Trimmed(window: seq<ContactInterval>, excess: real): seq<ContactInterval> {
    if window == [] || excess <= EPSILON then window
    else if window[0].duration <= excess + EPSILON then Trimmed(window[1..], Max(0.0, excess - window[0].duration))
    else [Younger(window[0], excess)] + window[1..]
  }

  function ExcessOf(window: seq<ContactInterval>): real {
    Max(0.0, DurationOf(window) - CONTACT_WINDOW_S)
  }

  function Joined(older: ContactInterval, younger: ContactInterval): ContactInterval {
    ContactInterval(younger.duration + older.duration, younger.impulse + older.impulse)
  }

  /** The oldest intervals merged until there are at most 4096. */
  function Shortened(window: seq<ContactInterval>): seq<ContactInterval>
    decreases |window|
  {
    if |window| <= MAXIMUM_WINDOW_INTERVALS then window
    else Shortened([Joined(window[0], window[1])] + window[2..])
  }

  function NextWindow(window: seq<ContactInterval>, dt: real, impulse: real): seq<ContactInterval> {
    if dt == 0.0 && impulse == 0.0 then window
    else
      var filed := Filed(window, dt, impulse);
      Shortened(Trimmed(filed, ExcessOf(filed)))
  }

  // ---- What one tick does to the sums ----

  lemma {:induction false} FiledSums(window: seq<ContactInterval>, dt: real, impulse: real)
    ensures Filed(window, dt, impulse) != [] && DurationOf(Filed(window, dt, impulse)) == DurationOf(window) + dt
    ensures ImpulseOf(Filed(window, dt, impulse)) == ImpulseOf(window) + impulse
    ensures NotNegative(window) && dt >= 0.0 && impulse >= 0.0 ==> NotNegative(Filed(window, dt, impulse))
  {
    var n := |window|;
    AppendedSums(window, ContactInterval(dt, impulse));
    if n > 0 {
      var last := window[n - 1];
      assert window == window[..n - 1] + [last];
      AppendedSums(window[..n - 1], last);
      AppendedSums(window[..n - 1], last.(impulse := last.impulse + impulse));
    }
  }

  lemma {:induction false} ProperFraction(x: real, y: real)
    requires 0.0 < x < y
    ensures 0.0 < x / y < 1.0
  {
    var q := x / y;
    assert Times(y, q) == x && Times(y, 1.0) == y && Times(y, 0.0) == 0.0;
    TimesOrder(y, 1.0, q);
    TimesOrder(y, q, 0.0);
  }

  lemma {:induction false} YoungerPart(oldest: ContactInterval, excess: real)
    requires 0.0 < excess < oldest.duration && oldest.impulse >= 0.0
    ensures 0.0 < Younger(oldest, excess).duration == oldest.duration - excess
    ensures 0.0 <= Younger(oldest, excess).impulse <= oldest.impulse
  {
    var share := excess / oldest.duration;
    ProperFraction(excess, oldest.duration);
    assert oldest.impulse * excess / oldest.duration == Times(oldest.impulse, share);
    TimesPositive(oldest.impulse, share);
    TimesPositive(oldest.impulse, 1.0 - share);
    assert Times(oldest.impulse, 1.0 - share) == oldest.impulse - Times(oldest.impulse, share);
    hide Times;
  }

  lemma {:induction false} ReplacedFirst(window: seq<ContactInterval>, first: ContactInterval)
    requires window != [] && NotNegative(window) && first.duration >= 0.0 && first.impulse >= 0.0
    ensures var next := [first] + window[1..];
      && NotNegative(next) && DurationOf(next) == DurationOf(window) - window[0].duration + first.duration
      && ImpulseOf(next) == ImpulseOf(window) - window[0].impulse + first.impulse
  {
    assert ([first] + window[1..])[1..] == window[1..];
  }

  /** Trimming takes off the excess up to the tolerance, and what it takes off is not negative. */
  lemma {:induction false} TrimmedSums(window: seq<ContactInterval>, excess: real)
    requires NotNegative(window) && 0.0 <= excess
    ensures var left := Trimmed(window, excess);
      && NotNegative(left) && |left| <= |window| && ImpulseOf(left) <= ImpulseOf(window)
      && DurationOf(left) <= DurationOf(window)
      && (left == [] || DurationOf(window) - excess - EPSILON <= DurationOf(left)
        <= DurationOf(window) - excess + EPSILON)
      && (left == [] ==> DurationOf(window) <= excess + EPSILON)
      && (excess <= EPSILON ==> left == window)
  {
    if window != [] && excess > EPSILON {
      var oldest := window[0];
      if oldest.duration <= excess + EPSILON {
        TrimmedSums(window[1..], Max(0.0, excess - oldest.duration));
      } else {
        YoungerPart(oldest, excess);
        hide Younger;
        ReplacedFirst(window, Younger(oldest, excess));
      }
    }
  }

  lemma {:induction false} JoinedSums(window: seq<ContactInterval>)
    requires |window| >= 2
    ensures var next := [Joined(window[0], window[1])] + window[2..];
      && DurationOf(next) == DurationOf(window) && ImpulseOf(next) == ImpulseOf(window)
      && (NotNegative(window) ==> NotNegative(next))
  {
    assert window[1..][0] == window[1] && window[1..][1..] == window[2..];
    assert ([Joined(window[0], window[1])] + window[2..])[1..] == window[2..];
    assert DurationOf(window[1..]) == window[1].duration + DurationOf(window[2..]);
    assert ImpulseOf(window[1..]) == window[1].impulse + ImpulseOf(window[2..]);
  }

  lemma {:induction false} ShortenedSums(window: seq<ContactInterval>)
    ensures var next := Shortened(window);
      && DurationOf(next) == DurationOf(window) && ImpulseOf(next) == ImpulseOf(window)
      && |next| <= MAXIMUM_WINDOW_INTERVALS && (NotNegative(window) ==> NotNegative(next))
      && (|window| <= MAXIMUM_WINDOW_INTERVALS ==> next == window)
    decreases |window|
  {
    if |window| > MAXIMUM_WINDOW_INTERVALS {
      JoinedSums(window);
      ShortenedSums([Joined(window[0], window[1])] + window[2..]);
      hide NotNegative;
    }
  }

  ghost predicate GoodWindow(window: seq<ContactInterval>) {
    && NotNegative(window) && |window| <= MAXIMUM_WINDOW_INTERVALS
    && DurationOf(window) <= CONTACT_WINDOW_S + EPSILON
  }

  /** The window stays bounded in length and time, keeps a quarter second if there was one, and only loses impulse. */
  lemma {:induction false} NextWindowSums(window: seq<ContactInterval>, dt: real, impulse: real)
    requires GoodWindow(window) && dt >= 0.0 && impulse >= 0.0
    ensures var next := NextWindow(window, dt, impulse);
      && GoodWindow(next) && ImpulseOf(next) <= ImpulseOf(window) + impulse
      && DurationOf(next) >= Min(DurationOf(window) + dt, CONTACT_WINDOW_S - EPSILON)
      && (DurationOf(window) + dt <= CONTACT_WINDOW_S + EPSILON ==> ImpulseOf(next) == ImpulseOf(window) + impulse)
  {
    hide NotNegative, Filed, Trimmed, Shortened;
    var filed := Filed(window, dt, impulse);
    FiledSums(window, dt, impulse);
    TrimmedSums(filed, ExcessOf(filed));
    ShortenedSums(Trimmed(filed, ExcessOf(filed)));
  }

  /** What a tick takes out of the window. */
  function ExpiredImpulse(window: seq<ContactInterval>, dt: real, impulse: real): real {
    if dt == 0.0 && impulse == 0.0 then 0.0
    else
      var filed := Filed(window, dt, impulse);
      ImpulseOf(filed) - ImpulseOf(Trimmed(filed, ExcessOf(filed)))
  }

  lemma {:induction false} ExpiryConserves(window: seq<ContactInterval>, dt: real, impulse: real)
    requires GoodWindow(window) && dt >= 0.0 && impulse >= 0.0
    ensures ImpulseOf(window) + impulse
      == ImpulseOf(NextWindow(window, dt, impulse)) + ExpiredImpulse(window, dt, impulse)
    ensures ExpiredImpulse(window, dt, impulse) >= 0.0
  {
    hide NotNegative, Filed, Trimmed, Shortened;
    var filed := Filed(window, dt, impulse);
    FiledSums(window, dt, impulse);
    TrimmedSums(filed, ExcessOf(filed));
    ShortenedSums(Trimmed(filed, ExcessOf(filed)));
  }

  // ---- A whole history ----

  /** The history after a tick; a tick without time or impulse files nothing. */
  function NextHistory(history: seq<ContactInterval>, dt: real, impulse: real): seq<ContactInterval> {
    if dt == 0.0 && impulse == 0.0 then history else Filed(history, dt, impulse)
  }

  /** A part of an interval, with impulse in proportion to time; the whole when it has the whole duration. */
  ghost predicate PartOf(part: ContactInterval, whole: ContactInterval) {
    && 0.0 <= part.duration <= whole.duration
    && Times(part.impulse, whole.duration) == Times(whole.impulse, part.duration)
    && (part.duration == whole.duration ==> part == whole)
  }

  /** From its second interval on the window is the end of the history; its first stands for what came before. */
  ghost predicate Recent(window: seq<ContactInterval>, history: seq<ContactInterval>) {
    && |window| <= |history| && (window == [] ==> history == [])
    && (window != [] ==> window[1..] == history[|history| - |window| + 1..])
    && (window != [] ==> (window[|window| - 1].duration == 0.0 <==> history[|history| - 1].duration == 0.0))
  }

  /** The window is exactly the end of the history, its first interval cut in proportion. */
  ghost predicate CutSuffix(window: seq<ContactInterval>, history: seq<ContactInterval>) {
    && Recent(window, history)
    && (window != [] ==> PartOf(window[0], history[|history| - |window|]))
    && (window == history || DurationOf(window) >= CONTACT_WINDOW_S - EPSILON)
  }

  lemma WholeIsPart(whole: ContactInterval)
    ensures whole.duration >= 0.0 ==> PartOf(whole, whole)
  {
  }

  lemma ShareOfPart(impulse: real, duration: real, excess: real)
    requires duration > 0.0
    ensures impulse - impulse * excess / duration == Times(impulse, (duration - excess) / duration)
  {
  }

  lemma ShareOfWhole(whole: real, duration: real, left: real)
    requires duration > 0.0
    ensures Times(Times(whole, duration), left / duration) == Times(whole, left)
  {
  }

  lemma {:induction false} PartOfPart(part: ContactInterval, whole: ContactInterval, excess: real)
    requires PartOf(part, whole) && 0.0 < excess < part.duration
    ensures PartOf(Younger(part, excess), whole)
  {
    var left := part.duration - excess;
    ShareOfPart(part.impulse, part.duration, excess);
    ShareOfWhole(whole.impulse, part.duration, left);
    TimesSwap(part.impulse, left / part.duration, whole.duration);
    hide Times;
  }

  lemma TimesSwap(x: real, y: real, z: real)
    ensures Times(Times(x, y), z) == Times(Times(x, z), y)
  {
  }

  lemma {:induction false} FilingKeepsRecent(
    window: seq<ContactInterval>, history: seq<ContactInterval>, dt: real, impulse: real)
    requires Recent(window, history)
    ensures Recent(Filed(window, dt, impulse), Filed(history, dt, impulse))
  {
    if window != [] {
      var w, h := window[|window| - 1], history[|history| - 1];
      assert |window| > 1 ==> window[1..][|window| - 2] == w;
    }
  }

  lemma {:induction false} FilingKeepsSuffix(
    window: seq<ContactInterval>, history: seq<ContactInterval>, dt: real, impulse: real)
    requires CutSuffix(window, history) && dt >= 0.0
    ensures CutSuffix(Filed(window, dt, impulse), Filed(history, dt, impulse))
  {
    FilingKeepsRecent(window, history, dt, impulse);
    FiledSums(window, dt, impulse);
    hide NotNegative, ImpulseOf;
    if window == [] {
      WholeIsPart(ContactInterval(dt, impulse));
    } else {
      WholeIsPart(Filed(window, dt, impulse)[0]);
    }
    hide Times, DurationOf, Recent;
    assert window == history ==> Filed(window, dt, impulse) == Filed(history, dt, impulse);
  }

  lemma {:induction false} TrimmingKeepsSuffix(
    window: seq<ContactInterval>, history: seq<ContactInterval>, excess: real)
    requires window != [] && Recent(window, history) && PartOf(window[0], history[|history| - |window|])
    requires NotNegative(history) && 0.0 <= excess && (excess > EPSILON ==> DurationOf(window) > excess + EPSILON)
    ensures var left := Trimmed(window, excess);
      && left != [] && Recent(left, history) && PartOf(left[0], history[|history| - |left|])
  {
    hide Times;
    if excess > EPSILON {
      var oldest, rest := window[0], window[1..];
      if oldest.duration <= excess + EPSILON {
        assert DurationOf(window) == oldest.duration + DurationOf(rest);
        assert rest[0] == history[|history| - |rest|];
        WholeIsPart(rest[0]);
        TrimmingKeepsSuffix(rest, history, Max(0.0, excess - oldest.duration));
      } else {
        PartOfPart(oldest, history[|history| - |window|], excess);
        assert ([Younger(oldest, excess)] + rest)[1..] == rest;
      }
    }
  }

  lemma {:induction false} TrimmingKeepsRecent(
    window: seq<ContactInterval>, history: seq<ContactInterval>, excess: real)
    requires window != [] && Recent(window, history) && NotNegative(window)
    requires 0.0 <= excess && (excess > EPSILON ==> DurationOf(window) > excess + EPSILON)
    ensures Trimmed(window, excess) != [] && Recent(Trimmed(window, excess), history)
  {
    if excess > EPSILON {
      var oldest, rest := window[0], window[1..];
      if oldest.duration <= excess + EPSILON {
        assert DurationOf(window) == oldest.duration + DurationOf(rest);
        TrimmingKeepsRecent(rest, history, Max(0.0, excess - oldest.duration));
      } else {
        assert ([Younger(oldest, excess)] + rest)[1..] == rest;
      }
    }
  }

  lemma {:induction false} ShorteningKeepsRecent(window: seq<ContactInterval>, history: seq<ContactInterval>)
    requires Recent(window, history)
    ensures Recent(Shortened(window), history)
    decreases |window|
  {
    if |window| > MAXIMUM_WINDOW_INTERVALS {
      var next := [Joined(window[0], window[1])] + window[2..];
      assert next[1..] == window[2..] && window[1..][1..] == window[2..];
      assert next[|next| - 1] == window[|window| - 1];
      ShorteningKeepsRecent(next, history);
    }
  }

  /** Whatever is merged, all but the oldest entry of the window are exactly the newest intervals that were filed. */
  lemma {:induction false} NextKeepsRecent(
    window: seq<ContactInterval>, history: seq<ContactInterval>, dt: real, impulse: real)
    requires GoodWindow(window) && Recent(window, history) && dt >= 0.0 && impulse >= 0.0
    ensures Recent(NextWindow(window, dt, impulse), NextHistory(history, dt, impulse))
  {
    if !(dt == 0.0 && impulse == 0.0) {
      var filed := Filed(window, dt, impulse);
      FilingKeepsRecent(window, history, dt, impulse);
      FiledSums(window, dt, impulse);
      TrimmingKeepsRecent(filed, Filed(history, dt, impulse), ExcessOf(filed));
      ShorteningKeepsRecent(Trimmed(filed, ExcessOf(filed)), Filed(history, dt, impulse));
    }
    hide Recent, NotNegative, Trimmed, Shortened;
  }

  /** Nothing is merged in this tick. */
  predicate Unmerged(window: seq<ContactInterval>, dt: real, impulse: real) {
    var filed := Filed(window, dt, impulse);
    |Trimmed(filed, ExcessOf(filed))| <= MAXIMUM_WINDOW_INTERVALS
  }

  /** Without a merge the window remains exactly the end of the history, cut in proportion. */
  lemma {:induction false} NextKeepsSuffix(
    window: seq<ContactInterval>, history: seq<ContactInterval>, dt: real, impulse: real)
    requires GoodWindow(window) && CutSuffix(window, history) && NotNegative(history) && dt >= 0.0 && impulse >= 0.0
    requires Unmerged(window, dt, impulse)
    ensures CutSuffix(NextWindow(window, dt, impulse), NextHistory(history, dt, impulse))
  {
    hide Recent, PartOf, NotNegative, Trimmed, Filed, DurationOf, ImpulseOf;
    if !(dt == 0.0 && impulse == 0.0) {
      var filed, longer := Filed(window, dt, impulse), Filed(history, dt, impulse);
      FilingKeepsSuffix(window, history, dt, impulse);
      FiledSums(window, dt, impulse);
      FiledSums(history, dt, impulse);
      TrimmedSums(filed, ExcessOf(filed));
      TrimmingKeepsSuffix(filed, longer, ExcessOf(filed));
    }
  }

  // ---- What the window still holds ----

  lemma {:induction false} SuffixSums(window: seq<ContactInterval>, k: nat)
    requires NotNegative(window) && k <= |window|
    ensures DurationOf(window[k..]) <= DurationOf(window) && ImpulseOf(window[k..]) <= ImpulseOf(window)
  {
    if k > 0 {
      SuffixSums(window[1..], k - 1);
      assert window[1..][k - 1..] == window[k..];
    }
  }

  /** All impulse that was filed less than a quarter second ago, up to the tolerance, is still in the window. */
  lemma {:induction false} NewestIsKept(window: seq<ContactInterval>, history: seq<ContactInterval>, k: nat)
    requires NotNegative(window) && NotNegative(history) && CutSuffix(window, history) && k <= |history|
    requires DurationOf(history[k..]) < CONTACT_WINDOW_S - EPSILON
    ensures ImpulseOf(history[k..]) <= ImpulseOf(window)
  {
    hide Times;
    if window == history {
      SuffixSums(history, k);
    } else {
      OlderIsLonger(window, history, k);
      var m := |history| - |window|;
      assert k > m;
      SuffixSums(window[1..], k - m - 1);
      assert window[1..][k - m - 1..] == history[k..];
    }
  }

  lemma {:induction false} OlderIsLonger(window: seq<ContactInterval>, history: seq<ContactInterval>, k: nat)
    requires NotNegative(history) && window != [] && Recent(window, history)
    requires PartOf(window[0], history[|history| - |window|])
    ensures k <= |history| - |window| ==> DurationOf(history[k..]) >= DurationOf(window)
  {
    hide Times;
    var m := |history| - |window|;
    if k <= m {
      SuffixSums(history[k..], m - k);
      assert history[k..][m - k..] == history[m..] && history[m..][1..] == window[1..];
    }
  }

  const FINEST_TICK_S: real := 1.0 / 16000.0

  lemma {:induction false} LongIntervals(window: seq<ContactInterval>)
    requires forall i :: 0 <= i < |window| ==> window[i].duration >= FINEST_TICK_S
    ensures DurationOf(window) >= |window| as real * FINEST_TICK_S
  {
    if window != [] {
      LongIntervals(window[1..]);
    }
  }

  /** With ticks of at least 1/16000 s nothing is ever merged. */
  lemma {:induction false} CoarseTicksDoNotMerge(
    window: seq<ContactInterval>, history: seq<ContactInterval>, dt: real, impulse: real)
    requires GoodWindow(window) && CutSuffix(window, history) && NotNegative(history) && impulse >= 0.0
    requires dt >= FINEST_TICK_S && forall i :: 0 <= i < |history| ==> history[i].duration >= FINEST_TICK_S
    ensures Unmerged(window, dt, impulse)
  {
    hide Times, Trimmed, ImpulseOf;
    var filed, longer := Filed(window, dt, impulse), Filed(history, dt, impulse);
    FilingKeepsSuffix(window, history, dt, impulse);
    FiledSums(window, dt, impulse);
    FiledSums(history, dt, impulse);
    TrimmedSums(filed, ExcessOf(filed));
    TrimmingKeepsSuffix(filed, longer, ExcessOf(filed));
    var left := Trimmed(filed, ExcessOf(filed));
    assert forall i :: 0 <= i < |left| - 1 ==> left[1..][i] == longer[|longer| - |left| + 1..][i];
    LongIntervals(left[1..]);
  }
}
