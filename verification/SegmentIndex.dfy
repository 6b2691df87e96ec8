/** Distance-to-route questions answered through an 8 m cell index, exactly as by scanning every segment. */
module SegmentIndex {
  import opened Planar

  const PATH_TOLERANCE_M: real := 0.03
  const CELL_M: real := 8.0

  datatype Segment = Segment(start: Vector2, end: Vector2)

  type Cell = (int, int)

  /** An authored segment has positive length. */
  ghost predicate Authored(segments: seq<Segment>) {
    forall i :: 0 <= i < |segments| ==> segments[i].start != segments[i].end
  }

  function SquaredLength(s: Segment): real {
    var d := Subtract(s.end, s.start);
    Times(d.east, d.east) + Times(d.north, d.north)
  }

  lemma {:induction false} AuthoredLength(s: Segment)
    requires s.start != s.end
    ensures SquaredLength(s) > 0.0
  {
    var d := Subtract(s.end, s.start);
    assert d.east != 0.0 || d.north != 0.0;
    assert Square(d.east) >= 0.0 && Square(d.north) >= 0.0;
    hide Times;
  }

  /** How far along the segment, from 0 to 1, its point closest to `point` lies. */
  function Along(point: Vector2, s: Segment): real
    requires s.start != s.end
  {
    AuthoredLength(s);
    var d := Subtract(s.end, s.start);
    Clamp((Times(point.east - s.start.east, d.east) + Times(point.north - s.start.north, d.north)) / SquaredLength(s),
      0.0, 1.0)
  }

  /** The segment's point at a share of its length. */
  function PointAt(s: Segment, share: real): Vector2 {
    var d := Subtract(s.end, s.start);
    Vector2(s.start.east + Times(share, d.east), s.start.north + Times(share, d.north))
  }

  function DistanceToSegment(point: Vector2, s: Segment, hypot: (real, real) -> real): real
    requires s.start != s.end
  {
    var closest := PointAt(s, Along(point, s));
    hypot(point.east - closest.east, point.north - closest.north)
  }

  // ---- The distance really is the least ----

  function SquaredDistance(point: Vector2, s: Segment, share: real): real {
    var q := PointAt(s, share);
    Times(point.east - q.east, point.east - q.east) + Times(point.north - q.north, point.north - q.north)
  }

  /** The squared distance is a parabola in the share. */
  lemma {:induction false} Parabola(px: real, py: real, dx: real, dy: real, u: real, v: real)
    ensures var x, y := px - Times(u, dx), py - Times(u, dy);
      var x1, y1 := px - Times(v, dx), py - Times(v, dy);
      Times(x, x) + Times(y, y) - (Times(x1, x1) + Times(y1, y1))
      == Times(u - v, Times(u + v, Times(dx, dx) + Times(dy, dy)) - 2.0 * (Times(px, dx) + Times(py, dy)))
  {
    ParabolaOfOne(px, dx, u, v);
    ParabolaOfOne(py, dy, u, v);
    TimesDistributes(u + v, Times(dx, dx), Times(dy, dy));
    TimesDistributes(u - v, Times(u + v, Times(dx, dx)) - 2.0 * Times(px, dx),
      Times(u + v, Times(dy, dy)) - 2.0 * Times(py, dy));
    hide Times;
  }

  lemma ParabolaOfOne(p: real, d: real, u: real, v: real)
    ensures var x, x1 := p - Times(u, d), p - Times(v, d);
      Times(x, x) - Times(x1, x1) == Times(u - v, Times(u + v, Times(d, d)) - 2.0 * Times(p, d))
  {
  }

  /** The clamped projection minimises the parabola on [0, 1]. */
  lemma {:induction false} ClampedProjection(q: real, length: real, u: real)
    requires length > 0.0 && 0.0 <= u <= 1.0
    ensures var v := Clamp(q / length, 0.0, 1.0);
      Times(u - v, Times(u + v, length) - 2.0 * q) >= 0.0
  {
    hide Times;
    var r := q / length;
    var v := Clamp(r, 0.0, 1.0);
    var w := u + v - 2.0 * r;
    QuotientTimes(q, length);
    SlopeOfParabola(u + v, r, length);
    TimesPositive(length, w);
    SameSign(u - v, Times(length, w));
  }

  lemma SlopeOfParabola(sum: real, r: real, length: real)
    ensures Times(sum, length) - 2.0 * Times(r, length) == Times(length, sum - 2.0 * r)
  {
  }

  lemma SameSign(x: real, y: real)
    requires (x >= 0.0 && y >= 0.0) || (x <= 0.0 && y <= 0.0) || x == 0.0
    ensures Times(x, y) >= 0.0
  {
  }

  /** No point of the segment is closer than the distance that is returned. */
  lemma {:induction false} DistanceIsLeast(point: Vector2, s: Segment, hypot: (real, real) -> real, share: real)
    requires s.start != s.end && IsHypot(hypot) && 0.0 <= share <= 1.0
    ensures DistanceToSegment(point, s, hypot) >= 0.0
    ensures Times(DistanceToSegment(point, s, hypot), DistanceToSegment(point, s, hypot))
      <= SquaredDistance(point, s, share)
    ensures Times(DistanceToSegment(point, s, hypot), DistanceToSegment(point, s, hypot))
         == SquaredDistance(point, s, Along(point, s)) && 0.0 <= Along(point, s) <= 1.0
  {
    hide Times;
    AuthoredLength(s);
    var d := Subtract(s.end, s.start);
    var px, py := point.east - s.start.east, point.north - s.start.north;
    Parabola(px, py, d.east, d.north, share, Along(point, s));
    ClampedProjection(Times(px, d.east) + Times(py, d.north), SquaredLength(s), share);
    var closest := PointAt(s, Along(point, s));
    assert IsLength(hypot(point.east - closest.east, point.north - closest.north),
      point.east - closest.east, point.north - closest.north);
  }

  // ---- Cells ----

  function CellOf(coordinate: real): int {
    (coordinate / CELL_M).Floor
  }

  lemma CellsFollow(x: real, y: real)
    requires x <= y
    ensures CellOf(x) <= CellOf(y)
  {
  }

  /** The cells whose square meets the segment's bounds, widened by the tolerance. */
  predicate Covers(s: Segment, cell: Cell) {
    && CellOf(Min(s.start.east, s.end.east) - PATH_TOLERANCE_M) <= cell.0
      <= CellOf(Max(s.start.east, s.end.east) + PATH_TOLERANCE_M)
    && CellOf(Min(s.start.north, s.end.north) - PATH_TOLERANCE_M) <= cell.1
      <= CellOf(Max(s.start.north, s.end.north) + PATH_TOLERANCE_M)
  }

  ghost predicate Files(index: map<Cell, seq<Segment>>, cell: Cell, s: Segment) {
    cell in index && s in index[cell]
  }

  /** The index of a list of segments: each is filed under exactly the cells it covers. */
  ghost predicate IndexOf(segments: seq<Segment>, index: map<Cell, seq<Segment>>) {
    forall cell, s :: Files(index, cell, s) <==> s in segments && Covers(s, cell)
  }

  ghost predicate Reached(s: Segment, x: int, y: int, y0: int, cell: Cell) {
    Covers(s, cell) && (cell.0 < x || (cell.0 == x && y0 <= cell.1 < y))
  }

  method FileSegment(index: map<Cell, seq<Segment>>, s: Segment) returns (next: map<Cell, seq<Segment>>)
    ensures forall cell, t :: Files(next, cell, t) <==> Files(index, cell, t) || (t == s && Covers(s, cell))
  {
    hide CellOf;
    next := index;
    var x0, x1 := CellOf(Min(s.start.east, s.end.east) - PATH_TOLERANCE_M),
      CellOf(Max(s.start.east, s.end.east) + PATH_TOLERANCE_M);
    var y0, y1 := CellOf(Min(s.start.north, s.end.north) - PATH_TOLERANCE_M),
      CellOf(Max(s.start.north, s.end.north) + PATH_TOLERANCE_M);
    BoundsInOrder(s);
    for x := x0 to x1 + 1
      invariant forall cell, t ::
        Files(next, cell, t) <==> Files(index, cell, t) || (t == s && Reached(s, x, y0, y0, cell))
    {
      for y := y0 to y1 + 1
        invariant forall cell, t ::
          Files(next, cell, t) <==> Files(index, cell, t) || (t == s && Reached(s, x, y, y0, cell))
      {
        var cell, before := (x, y), next;
        next := next[cell := (if cell in next then next[cell] else []) + [s]];
        assert forall other, t :: Files(next, other, t) <==> Files(before, other, t) || (t == s && other == cell);
        ghost var nextY := y + 1;
        assert forall other :: Reached(s, x, nextY, y0, other) <==> Reached(s, x, y, y0, other) || other == cell;
      }
      ghost var nextX, top := x + 1, y1 + 1;
      assert forall other :: Reached(s, nextX, y0, y0, other) <==> Reached(s, x, top, y0, other);
    }
    ghost var end := x1 + 1;
    assert forall other :: Reached(s, end, y0, y0, other) <==> Covers(s, other);
  }

  lemma {:induction false} BoundsInOrder(s: Segment)
    ensures CellOf(Min(s.start.east, s.end.east) - PATH_TOLERANCE_M)
      <= CellOf(Max(s.start.east, s.end.east) + PATH_TOLERANCE_M)
    ensures CellOf(Min(s.start.north, s.end.north) - PATH_TOLERANCE_M)
      <= CellOf(Max(s.start.north, s.end.north) + PATH_TOLERANCE_M)
  {
    CellsFollow(Min(s.start.east, s.end.east) - PATH_TOLERANCE_M, Max(s.start.east, s.end.east) + PATH_TOLERANCE_M);
    CellsFollow(Min(s.start.north, s.end.north) - PATH_TOLERANCE_M, Max(s.start.north, s.end.north) + PATH_TOLERANCE_M);
  }

  method BuildSegmentIndex(segments: seq<Segment>) returns (index: map<Cell, seq<Segment>>)
    ensures IndexOf(segments, index)
  {
    hide Covers;
    index := map[];
    for k := 0 to |segments|
      invariant IndexOf(segments[..k], index)
    {
      var before := index;
      index := FileSegment(index, segments[k]);
      assert segments[..k + 1] == segments[..k] + [segments[k]];
      assert forall cell, s ::
        Files(index, cell, s) <==> Files(before, cell, s) || (s == segments[k] && Covers(segments[k], cell));
    }
    assert segments[..|segments|] == segments;
  }

  // ---- Closeness implies bounds ----

  predicate InBounds(point: Vector2, s: Segment, margin: real) {
    && Min(s.start.east, s.end.east) - margin <= point.east <= Max(s.start.east, s.end.east) + margin
    && Min(s.start.north, s.end.north) - margin <= point.north <= Max(s.start.north, s.end.north) + margin
  }

  lemma {:induction false} ShareWithin(a: real, b: real, share: real)
    requires 0.0 <= share <= 1.0
    ensures Min(a, b) <= a + Times(share, b - a) <= Max(a, b)
  {
    TimesPositive(share, b - a);
    TimesPositive(share, a - b);
    TimesPositive(1.0 - share, b - a);
    TimesPositive(1.0 - share, a - b);
    assert Times(share, a - b) == -Times(share, b - a);
    assert Times(1.0 - share, b - a) == b - a - Times(share, b - a);
    assert Times(1.0 - share, a - b) == a - b + Times(share, b - a);
    hide Times;
  }

  /** A point within a distance of a segment lies in its bounds widened by that distance. */
  lemma {:induction false} CloseIsInBounds(point: Vector2, s: Segment, hypot: (real, real) -> real, distance: real)
    requires s.start != s.end && IsHypot(hypot) && DistanceToSegment(point, s, hypot) <= distance
    ensures InBounds(point, s, distance) && distance >= 0.0
  {
    hide Times;
    DistanceIsLeast(point, s, hypot, 0.0);
    var closest := PointAt(s, Along(point, s));
    LengthBoundsCoordinates(DistanceToSegment(point, s, hypot), point.east - closest.east, point.north - closest.north);
    ShareWithin(s.start.east, s.end.east, Along(point, s));
    ShareWithin(s.start.north, s.end.north, Along(point, s));
    hide Along;
  }

  // ---- The two questions ----

  ghost predicate Near(point: Vector2, s: Segment, hypot: (real, real) -> real)
  {
    s.start != s.end && DistanceToSegment(point, s, hypot) < PATH_TOLERANCE_M
  }

  ghost predicate Within(point: Vector2, s: Segment, hypot: (real, real) -> real, distance: real) {
    s.start != s.end && DistanceToSegment(point, s, hypot) <= distance
  }

  function CellAt(point: Vector2): Cell {
    (CellOf(point.east), CellOf(point.north))
  }

  /** The point's own cell holds every segment that is near it. */
  lemma {:induction false} NearIsFiled(point: Vector2, s: Segment, hypot: (real, real) -> real)
    requires IsHypot(hypot) && Near(point, s, hypot)
    ensures Covers(s, CellAt(point)) && InBounds(point, s, PATH_TOLERANCE_M)
  {
    hide DistanceToSegment, CellOf;
    CloseIsInBounds(point, s, hypot, PATH_TOLERANCE_M);
    CellsFollow(Min(s.start.east, s.end.east) - PATH_TOLERANCE_M, point.east);
    CellsFollow(point.east, Max(s.start.east, s.end.east) + PATH_TOLERANCE_M);
    CellsFollow(Min(s.start.north, s.end.north) - PATH_TOLERANCE_M, point.north);
    CellsFollow(point.north, Max(s.start.north, s.end.north) + PATH_TOLERANCE_M);
  }

  /** With or without the index the answer is that of the full scan; the bounds test only skips what is far. */
  method PointNearRoute(
    point: Vector2, segments: seq<Segment>, indexed: bool, index: map<Cell, seq<Segment>>, hypot: (real, real) -> real)
    returns (near: bool)
    requires Authored(segments) && IsHypot(hypot) && (indexed ==> IndexOf(segments, index))
    ensures near <==> exists s :: s in segments && Near(point, s, hypot)
  {
    hide DistanceToSegment, CellOf, Covers;
    var candidates := segments;
    if indexed {
      candidates := if CellAt(point) in index then index[CellAt(point)] else [];
      forall s
        ensures s in candidates <==> s in segments && Covers(s, CellAt(point))
      {
        assert Files(index, CellAt(point), s) <==> s in segments && Covers(s, CellAt(point));
      }
    }
    forall s | s in segments && Near(point, s, hypot)
      ensures s in candidates && InBounds(point, s, PATH_TOLERANCE_M)
    {
      NearIsFiled(point, s, hypot);
    }
    for k := 0 to |candidates|
      invariant forall j :: 0 <= j < k ==> !Near(point, candidates[j], hypot)
    {
      var s := candidates[k];
      assert s in segments;
      if !InBounds(point, s, PATH_TOLERANCE_M) {
        continue;
      }
      if DistanceToSegment(point, s, hypot) < PATH_TOLERANCE_M {
        assert Near(point, s, hypot);
        return true;
      }
    }
    near := false;
  }

  /** The cells that a query of some reach visits. */
  predicate InReach(point: Vector2, distance: real, cell: Cell) {
    && CellOf(point.east - distance) <= cell.0 <= CellOf(point.east + distance)
    && CellOf(point.north - distance) <= cell.1 <= CellOf(point.north + distance)
  }

  /** A segment within the distance shares a cell with the reach: its point closest to the query. */
  lemma {:induction false} WithinIsVisited(
    point: Vector2, s: Segment, hypot: (real, real) -> real, distance: real) returns (cell: Cell)
    requires IsHypot(hypot) && Within(point, s, hypot, distance)
    ensures Covers(s, cell) && InReach(point, distance, cell)
  {
    hide Times, CellOf;
    DistanceIsLeast(point, s, hypot, 0.0);
    var closest := PointAt(s, Along(point, s));
    LengthBoundsCoordinates(DistanceToSegment(point, s, hypot), point.east - closest.east, point.north - closest.north);
    ShareWithin(s.start.east, s.end.east, Along(point, s));
    ShareWithin(s.start.north, s.end.north, Along(point, s));
    hide Along;
    cell := CellAt(closest);
    CellsFollow(point.east - distance, closest.east);
    CellsFollow(closest.east, point.east + distance);
    CellsFollow(point.north - distance, closest.north);
    CellsFollow(closest.north, point.north + distance);
    CellsFollow(Min(s.start.east, s.end.east) - PATH_TOLERANCE_M, closest.east);
    CellsFollow(closest.east, Max(s.start.east, s.end.east) + PATH_TOLERANCE_M);
    CellsFollow(Min(s.start.north, s.end.north) - PATH_TOLERANCE_M, closest.north);
    CellsFollow(closest.north, Max(s.start.north, s.end.north) + PATH_TOLERANCE_M);
  }

  ghost predicate Seen(point: Vector2, distance: real, x: int, y: int, y0: int, cell: Cell) {
    InReach(point, distance, cell) && (cell.0 < x || (cell.0 == x && y0 <= cell.1 < y))
  }

  /** Nothing filed under the cells seen so far is within the distance. */
  ghost predicate NoneSeen(
    point: Vector2, index: map<Cell, seq<Segment>>, distance: real, x: int, y: int, y0: int,
    hypot: (real, real) -> real)
  {
    forall cell, s :: Seen(point, distance, x, y, y0, cell) && Files(index, cell, s) ==>
      !Within(point, s, hypot, distance)
  }

  method VisitCell(
    point: Vector2, segments: seq<Segment>, filed: seq<Segment>, visited: set<Segment>, distance: real,
    hypot: (real, real) -> real)
    returns (found: bool, next: set<Segment>)
    requires Authored(segments) && forall s :: s in filed ==> s in segments
    requires forall s :: s in visited ==> !Within(point, s, hypot, distance)
    ensures found <==> exists s :: s in filed && Within(point, s, hypot, distance)
    ensures !found ==> forall s :: s in next ==> !Within(point, s, hypot, distance)
  {
    hide DistanceToSegment;
    next := visited;
    for k := 0 to |filed|
      invariant forall s :: s in next ==> !Within(point, s, hypot, distance)
      invariant forall j :: 0 <= j < k ==> !Within(point, filed[j], hypot, distance)
    {
      var s := filed[k];
      if s !in next {
        assert s in filed;
        if DistanceToSegment(point, s, hypot) <= distance {
          assert Within(point, s, hypot, distance);
          return true, next;
        }
        next := next + {s};
      }
    }
    found := false;
  }

  /** Any distance, with or without the index: exactly the full scan's answer. */
  method WithinRouteDistance(
    point: Vector2, segments: seq<Segment>, indexed: bool, index: map<Cell, seq<Segment>>, distance: real,
    hypot: (real, real) -> real)
    returns (within: bool)
    requires Authored(segments) && IsHypot(hypot) && (indexed ==> IndexOf(segments, index))
    ensures within <==> exists s :: s in segments && Within(point, s, hypot, distance)
  {
    hide DistanceToSegment, CellOf, Covers, Within, IsHypot;
    if !indexed {
      var visited;
      within, visited := VisitCell(point, segments, segments, {}, distance, hypot);
      return;
    }
    var x0, x1 := CellOf(point.east - distance), CellOf(point.east + distance);
    var y0, y1 := CellOf(point.north - distance), CellOf(point.north + distance);
    var visited: set<Segment> := {};
    var x := x0;
    while x <= x1
      invariant x >= x0 && NoneSeen(point, index, distance, x, y0, y0, hypot)
      invariant forall s :: s in visited ==> !Within(point, s, hypot, distance)
      decreases x1 - x
    {
      var y := y0;
      while y <= y1
        invariant y >= y0 && NoneSeen(point, index, distance, x, y, y0, hypot)
        invariant forall s :: s in visited ==> !Within(point, s, hypot, distance)
        decreases y1 - y
      {
        var filed := if (x, y) in index then index[(x, y)] else [];
        assert forall s :: s in filed <==> Files(index, (x, y), s);
        var found;
        found, visited := VisitCell(point, segments, filed, visited, distance, hypot);
        if found {
          return true;
        }
        ghost var previous := y;
        y := y + 1;
        assert forall cell :: Seen(point, distance, x, y, y0, cell) ==>
          Seen(point, distance, x, previous, y0, cell) || cell == (x, previous);
      }
      ghost var previous := x;
      x := x + 1;
      assert forall cell :: Seen(point, distance, x, y0, y0, cell) ==> Seen(point, distance, previous, y, y0, cell);
    }
    within := false;
    forall s | s in segments
      ensures !Within(point, s, hypot, distance)
    {
      WithinIsSeen(point, segments, index, s, hypot, distance, x, y0);
    }
  }

  /** After the last column every segment within the distance has been seen in some cell. */
  lemma {:induction false} WithinIsSeen(
    point: Vector2, segments: seq<Segment>, index: map<Cell, seq<Segment>>, s: Segment, hypot: (real, real) -> real,
    distance: real, x: int, y0: int)
    requires IsHypot(hypot) && IndexOf(segments, index) && s in segments && x > CellOf(point.east + distance)
    ensures Within(point, s, hypot, distance) ==>
      exists cell :: Seen(point, distance, x, y0, y0, cell) && Files(index, cell, s)
  {
    hide DistanceToSegment, CellOf, Covers, Within, IsHypot;
    if Within(point, s, hypot, distance) {
      var cell := WithinIsVisited(point, s, hypot, distance);
      assert Files(index, cell, s);
      assert Seen(point, distance, x, y0, y0, cell);
    }
  }
}
