/** The uniform-grid broad phase: it may add candidates, but it never loses a pair whose bounds touch. */
module GridIndex {
  import opened Options
  import opened Planar
  import opened NarrowPhase
  import opened SeparatingAxis

  const CELL_SIZE_M: real := 8.0
  const MAXIMUM_GRID_CELLS: int := 4096
  const INT64_MIN: int := -0x8000_0000_0000_0000
  const INT64_MAX: int := 0x7FFF_FFFF_FFFF_FFFF

  datatype HorizontalAabb = HorizontalAabb(minEast: real, minNorth: real, maxEast: real, maxNorth: real)

  datatype GridCellRange = GridCellRange(minEast: int, minNorth: int, maxEast: int, maxNorth: int)

  type Cell = (int, int)

  /** The next representable values below and above, of which only the outward direction matters. */
  ghost predicate Outward(below: real -> real, above: real -> real) {
    forall x :: below(x) <= x <= above(x)
  }

  function CoordinateToCell(coordinate: real): Option<int> {
    var cell := (coordinate / CELL_SIZE_M).Floor;
    if INT64_MIN <= cell <= INT64_MAX then Some(cell) else None
  }

  function CellRange(aabb: HorizontalAabb, below: real -> real, above: real -> real): Option<GridCellRange> {
    var minEast, minNorth := CoordinateToCell(below(aabb.minEast)), CoordinateToCell(below(aabb.minNorth));
    var maxEast, maxNorth := CoordinateToCell(above(aabb.maxEast)), CoordinateToCell(above(aabb.maxNorth));
    if minEast.None? || minNorth.None? || maxEast.None? || maxNorth.None?
       || minEast.value > maxEast.value || minNorth.value > maxNorth.value then None
    else
      var eastCount, northCount := maxEast.value - minEast.value + 1, maxNorth.value - minNorth.value + 1;
      if eastCount > MAXIMUM_GRID_CELLS || northCount > MAXIMUM_GRID_CELLS
         || eastCount * northCount > MAXIMUM_GRID_CELLS then None
      else Some(GridCellRange(minEast.value, minNorth.value, maxEast.value, maxNorth.value))
  }

  predicate InRange(range: GridCellRange, cell: Cell) {
    range.minEast <= cell.0 <= range.maxEast && range.minNorth <= cell.1 <= range.maxNorth
  }

  ghost predicate RangesMeet(first: GridCellRange, second: GridCellRange) {
    exists cell: Cell :: InRange(first, cell) && InRange(second, cell)
  }

  ghost predicate Holds(cells: map<Cell, seq<nat>>, cell: Cell, index: nat) {
    cell in cells && index in cells[cell]
  }

  ghost predicate StrictlyIncreasing(indices: seq<nat>) {
    forall i, j :: 0 <= i < j < |indices| ==> indices[i] < indices[j]
  }

  lemma {:induction false} Inserted(before: seq<nat>, index: nat, after: seq<nat>)
    requires StrictlyIncreasing(before + after)
    requires forall k :: 0 <= k < |before| ==> before[k] < index
    requires |after| > 0 ==> index < after[0]
    ensures StrictlyIncreasing(before + [index] + after)
  {
    var all := before + after;
    forall k | 0 <= k < |after|
      ensures index < after[k]
    {
      assert all[|before|] == after[0] && all[|before| + k] == after[k];
    }
    forall i, j | 0 <= i < j < |before + [index] + after|
      ensures (before + [index] + after)[i] < (before + [index] + after)[j]
    {
      assert j < |before| ==> all[i] < all[j];
      assert i < |before| < j ==> all[i] < all[j - 1];
      assert |before| < i ==> all[i - 1] < all[j - 1];
    }
  }

  /** Inserts one index into a strictly increasing sequence, unless it is already there. */
  method Insert(sorted: seq<nat>, index: nat) returns (result: seq<nat>)
    requires StrictlyIncreasing(sorted)
    ensures StrictlyIncreasing(result)
    ensures forall i :: i in result <==> i in sorted || i == index
  {
    hide StrictlyIncreasing;
    var position := 0;
    while position < |sorted| && sorted[position] < index
      invariant 0 <= position <= |sorted|
      invariant forall k :: 0 <= k < position ==> sorted[k] < index
    {
      position := position + 1;
    }
    if position < |sorted| && sorted[position] == index {
      return sorted;
    }
    assert sorted == sorted[..position] + sorted[position..];
    result := sorted[..position] + [index] + sorted[position..];
    Inserted(sorted[..position], index, sorted[position..]);
  }

  method SortUnique(indices: seq<nat>) returns (result: seq<nat>)
    ensures StrictlyIncreasing(result)
    ensures forall i :: i in result <==> i in indices
  {
    result := [];
    for k := 0 to |indices|
      invariant StrictlyIncreasing(result)
      invariant forall i :: i in result <==> i in indices[..k]
    {
      result := Insert(result, indices[k]);
      assert indices[..k + 1] == indices[..k] + [indices[k]];
    }
    assert indices[..|indices|] == indices;
  }

  method AllIndices(count: nat) returns (indices: seq<nat>)
    ensures |indices| == count && forall i :: 0 <= i < count ==> indices[i] == i
    ensures forall i: nat :: i in indices <==> i < count
  {
    indices := [];
    for i := 0 to count
      invariant |indices| == i && forall k :: 0 <= k < i ==> indices[k] == k
      invariant forall k: nat :: k in indices <==> k < i
    {
      indices := indices + [i];
    }
  }

  /** Every column of a range before `east`, and the cells of column `east` before `north`. */
  ghost predicate Visited(range: GridCellRange, east: int, north: int, cell: Cell) {
    InRange(range, cell) && (cell.0 < east || (cell.0 == east && cell.1 < north))
  }

  class UniformGridIndex {
    const objectCount: nat
    const cells: map<Cell, seq<nat>>
    const globalIndices: seq<nat>
    const below: real -> real
    const above: real -> real
    ghost const objects: seq<HorizontalAabb>

    ghost function RangeOf(index: nat): Option<GridCellRange>
      requires index < |objects|
    {
      CellRange(objects[index], below, above)
    }

    ghost predicate Covers(index: nat, cell: Cell)
      requires index < |objects|
    {
      RangeOf(index).Some? && InRange(RangeOf(index).value, cell)
    }

    /** Each object is filed under exactly the cells of its range, or globally when it has no bounded range. */
    ghost predicate Valid() {
      && objectCount == |objects|
      && (forall i: nat :: i in globalIndices <==> i < objectCount && RangeOf(i).None?)
      && (forall cell, i: nat :: Holds(cells, cell, i) <==> i < objectCount && Covers(i, cell))
    }

    /** The candidates of a query: everything without a bounded range, or sharing a cell with it. */
    ghost predicate Candidate(query: HorizontalAabb, index: nat) {
      index < |objects|
      && (CellRange(query, below, above).None? || RangeOf(index).None?
          || RangesMeet(RangeOf(index).value, CellRange(query, below, above).value))
    }

    constructor (objectAabbs: seq<HorizontalAabb>, below: real -> real, above: real -> real)
      ensures Valid() && objects == objectAabbs && this.below == below && this.above == above
    {
      var filed: map<Cell, seq<nat>> := map[];
      var global: seq<nat> := [];
      for index := 0 to |objectAabbs|
        invariant forall i: nat :: i in global <==> i < index && CellRange(objectAabbs[i], below, above).None?
        invariant forall cell, i: nat :: Holds(filed, cell, i) <==>
          i < index && CellRange(objectAabbs[i], below, above).Some?
            && InRange(CellRange(objectAabbs[i], below, above).value, cell)
      {
        var range := CellRange(objectAabbs[index], below, above);
        if range.None? {
          global := global + [index];
        } else {
          filed := File(filed, range.value, index);
        }
      }
      objectCount, cells, globalIndices := |objectAabbs|, filed, global;
      this.below, this.above, objects := below, above, objectAabbs;
    }

    /** Sorted, unique, in range, and exactly the objects that the grid cannot rule out. */
    method Query(query: HorizontalAabb) returns (candidates: seq<nat>)
      requires Valid()
      ensures StrictlyIncreasing(candidates)
      ensures forall i: nat :: i in candidates <==> Candidate(query, i)
    {
      if objectCount == 0 {
        return [];
      }
      var range := CellRange(query, below, above);
      if range.None? {
        candidates := AllIndices(objectCount);
        return;
      }
      var found := Collect(cells, range.value, globalIndices);
      candidates := SortUnique(found);
      forall i: nat
        ensures i in candidates <==> Candidate(query, i)
      {
        assert (exists cell :: InRange(range.value, cell) && Holds(cells, cell, i))
          <==> i < objectCount && RangeOf(i).Some? && RangesMeet(RangeOf(i).value, range.value);
      }
    }
  }

  /** Appends `index` to every cell of the range. */
  method File(cells: map<Cell, seq<nat>>, range: GridCellRange, index: nat) returns (filed: map<Cell, seq<nat>>)
    requires range.minEast <= range.maxEast && range.minNorth <= range.maxNorth
    ensures forall cell, i: nat ::
      Holds(filed, cell, i) <==> Holds(cells, cell, i) || (i == index && InRange(range, cell))
  {
    filed := cells;
    var east := range.minEast;
    while east <= range.maxEast
      invariant range.minEast <= east <= range.maxEast + 1
      invariant forall cell, i: nat :: Holds(filed, cell, i) <==>
        Holds(cells, cell, i) || (i == index && Visited(range, east, range.minNorth, cell))
    {
      var north := range.minNorth;
      while north <= range.maxNorth
        invariant range.minNorth <= north <= range.maxNorth + 1
        invariant forall cell, i: nat :: Holds(filed, cell, i) <==>
          Holds(cells, cell, i) || (i == index && Visited(range, east, north, cell))
      {
        var cell := (east, north);
        var before := filed;
        filed := filed[cell := (if cell in filed then filed[cell] else []) + [index]];
        assert forall other, i: nat ::
          Holds(filed, other, i) <==> Holds(before, other, i) || (i == index && other == cell);
        north := north + 1;
      }
      east := east + 1;
    }
  }

  /** The start indices followed by the contents of every cell of the range. */
  method Collect(cells: map<Cell, seq<nat>>, range: GridCellRange, start: seq<nat>) returns (found: seq<nat>)
    requires range.minEast <= range.maxEast && range.minNorth <= range.maxNorth
    ensures forall i :: i in found <==> i in start || exists cell :: InRange(range, cell) && Holds(cells, cell, i)
  {
    found := start;
    var east := range.minEast;
    while east <= range.maxEast
      invariant range.minEast <= east <= range.maxEast + 1
      invariant forall i :: i in found <==>
        i in start || exists cell :: Visited(range, east, range.minNorth, cell) && Holds(cells, cell, i)
    {
      var north := range.minNorth;
      while north <= range.maxNorth
        invariant range.minNorth <= north <= range.maxNorth + 1
        invariant forall i :: i in found <==>
          i in start || exists cell :: Visited(range, east, north, cell) && Holds(cells, cell, i)
      {
        var cell := (east, north);
        var before := found;
        if cell in cells {
          found := found + cells[cell];
        }
        assert forall i :: i in found <==> i in before || Holds(cells, cell, i);
        ghost var nextNorth := north + 1;
        assert forall other ::
          Visited(range, east, nextNorth, other) <==> Visited(range, east, north, other) || other == cell;
        north := north + 1;
      }
      ghost var nextEast := east + 1;
      assert forall other :: Visited(range, nextEast, range.minNorth, other) <==> Visited(range, east, north, other);
      east := east + 1;
    }
    assert forall other :: Visited(range, east, range.minNorth, other) <==> InRange(range, other);
  }

  // ---- Nothing that touches is lost ----

  ghost predicate AabbsTouch(first: HorizontalAabb, second: HorizontalAabb) {
    && first.minEast <= second.maxEast && second.minEast <= first.maxEast
    && first.minNorth <= second.maxNorth && second.minNorth <= first.maxNorth
  }

  ghost predicate Ordered(aabb: HorizontalAabb) {
    aabb.minEast <= aabb.maxEast && aabb.minNorth <= aabb.maxNorth
  }

  function CellOf(coordinate: real): int {
    (coordinate / CELL_SIZE_M).Floor
  }

  lemma CellsFollowCoordinates(x: real, y: real)
    requires x <= y
    ensures CellOf(x) <= CellOf(y)
  {
  }

  /** A point inside the bounds lies in a cell of the range, because the range is rounded outward. */
  lemma {:induction false} PointInRange(
    aabb: HorizontalAabb, east: real, north: real, below: real -> real, above: real -> real)
    requires Outward(below, above) && CellRange(aabb, below, above).Some?
    requires aabb.minEast <= east <= aabb.maxEast && aabb.minNorth <= north <= aabb.maxNorth
    ensures InRange(CellRange(aabb, below, above).value, (CellOf(east), CellOf(north)))
  {
    CellsFollowCoordinates(below(aabb.minEast), east);
    CellsFollowCoordinates(below(aabb.minNorth), north);
    CellsFollowCoordinates(east, above(aabb.maxEast));
    CellsFollowCoordinates(north, above(aabb.maxNorth));
  }

  /** Objects whose bounds touch the query's bounds are always candidates. */
  lemma {:induction false} TouchingIsCandidate(grid: UniformGridIndex, query: HorizontalAabb, index: nat)
    requires Outward(grid.below, grid.above) && index < |grid.objects|
    requires Ordered(query) && Ordered(grid.objects[index]) && AabbsTouch(query, grid.objects[index])
    ensures grid.Candidate(query, index)
  {
    var filed := grid.objects[index];
    if CellRange(query, grid.below, grid.above).Some? && grid.RangeOf(index).Some? {
      var east, north := Max(query.minEast, filed.minEast), Max(query.minNorth, filed.minNorth);
      PointInRange(query, east, north, grid.below, grid.above);
      PointInRange(filed, east, north, grid.below, grid.above);
      assert InRange(grid.RangeOf(index).value, (CellOf(east), CellOf(north)));
    }
  }

  // ---- Boxes ----

  const EAST := Vector2(1.0, 0.0)
  const NORTH := Vector2(0.0, 1.0)

  function BoxAabb(shape: ObbPrism): HorizontalAabb {
    var right := Right(shape.forward);
    var eastRadius := shape.halfLength * Abs(shape.forward.east) + shape.halfWidth * Abs(right.east);
    var northRadius := shape.halfLength * Abs(shape.forward.north) + shape.halfWidth * Abs(right.north);
    HorizontalAabb(shape.center.east - eastRadius, shape.center.north - northRadius,
                   shape.center.east + eastRadius, shape.center.north + northRadius)
  }

  function CapsuleAabb(capsule: VerticalCapsule): HorizontalAabb {
    HorizontalAabb(capsule.center.east - capsule.radius, capsule.center.north - capsule.radius,
                   capsule.center.east + capsule.radius, capsule.center.north + capsule.radius)
  }

  lemma {:induction false} RadiusNotNegative(shape: ObbPrism, axis: Vector2)
    requires ValidShape(shape)
    ensures ProjectedRadius(shape, axis) >= 0.0
  {
    TimesPositive(shape.halfLength, Abs(Dot(axis, shape.forward)));
    TimesPositive(shape.halfWidth, Abs(Dot(axis, Right(shape.forward))));
  }

  lemma {:induction false} AabbIsProjection(shape: ObbPrism)
    requires ValidShape(shape)
    ensures var aabb := BoxAabb(shape);
      var east, north := ProjectedRadius(shape, EAST), ProjectedRadius(shape, NORTH);
      && aabb == HorizontalAabb(shape.center.east - east, shape.center.north - north,
                                shape.center.east + east, shape.center.north + north)
      && Ordered(aabb)
  {
    RadiusNotNegative(shape, EAST);
    RadiusNotNegative(shape, NORTH);
    assert Dot(EAST, shape.forward) == shape.forward.east
      && Dot(EAST, Right(shape.forward)) == Right(shape.forward).east;
    assert Dot(NORTH, shape.forward) == shape.forward.north
      && Dot(NORTH, Right(shape.forward)) == Right(shape.forward).north;
    hide Dot, Right;
  }

  /** Whatever the full narrow phase reports, the two bounding boxes overlap. */
  lemma {:induction false} ManifoldBoundsTouch(body: ObbPrism, obstacle: ObbPrism, velocity: Vector2)
    requires ValidShape(body) && ValidShape(obstacle)
    requires IntersectObbPrisms(body, obstacle, velocity).Some?
    ensures AabbsTouch(BoxAabb(body), BoxAabb(obstacle))
  {
    hide ProjectedRadius, BoxAabb, CandidateAxis, PushDirection, SupportPoint, VerticalOverlap;
    assert OverlapOnEdgeAxes(body, obstacle);
    SeparatingAxisTheorem(body, obstacle, EAST);
    SeparatingAxisTheorem(body, obstacle, NORTH);
    AabbIsProjection(body);
    AabbIsProjection(obstacle);
  }

  /**
   * The grid query followed by the narrow phase finds exactly what the full scan finds: every static collider with a
   * manifold at the query pose is among the candidates.
   */
  lemma {:induction false} GridLosesNoContact(
    grid: UniformGridIndex, colliders: seq<ObbPrism>, body: ObbPrism, velocity: Vector2, index: nat)
    requires Outward(grid.below, grid.above) && ValidShape(body) && index < |colliders| && ValidShape(colliders[index])
    requires |grid.objects| == |colliders| && grid.objects[index] == BoxAabb(colliders[index])
    requires IntersectObbPrisms(body, colliders[index], velocity).Some?
    ensures grid.Candidate(BoxAabb(body), index)
  {
    hide BoxAabb, IntersectObbPrisms;
    ManifoldBoundsTouch(body, colliders[index], velocity);
    AabbIsProjection(body);
    AabbIsProjection(colliders[index]);
    TouchingIsCandidate(grid, BoxAabb(body), index);
  }

  /**
   * A collider that shares an interior point and a vertical interval with the body is a candidate and has a manifold.
   */
  lemma {:induction false} TrueOverlapIsFound(
    grid: UniformGridIndex, colliders: seq<ObbPrism>, body: ObbPrism, velocity: Vector2, index: nat, point: Vector2)
    requires Outward(grid.below, grid.above) && ValidShape(body) && index < |colliders| && ValidShape(colliders[index])
    requires |grid.objects| == |colliders| && grid.objects[index] == BoxAabb(colliders[index])
    requires Inside(body, point) && Inside(colliders[index], point)
    requires VerticalOverlap(body.centerUp, body.halfHeight, colliders[index].centerUp,
      colliders[index].halfHeight) > 0.0
    ensures IntersectObbPrisms(body, colliders[index], velocity).Some? && grid.Candidate(BoxAabb(body), index)
  {
    hide Inside, BoxAabb, VerticalOverlap, IntersectObbPrisms;
    SharedPointGivesManifold(body, colliders[index], velocity, point);
    GridLosesNoContact(grid, colliders, body, velocity, index);
  }

  // ---- Capsules ----

  lemma {:induction false} WeightedCoordinate(x: real, half: real, weight: real)
    requires half > 0.0
    ensures -Times(half, Abs(weight)) <= Times(weight, Clamp(x, -half, half)) <= Times(half, Abs(weight))
  {
    var clamped := Clamp(x, -half, half);
    TimesOrder(Abs(weight), clamped, half);
    TimesOrder(Abs(weight), -half, clamped);
  }

  /** The closest point of a box lies within the box's bounds. */
  lemma {:induction false} ClosestPointInBounds(body: ObbPrism, point: Vector2)
    requires ValidShape(body)
    ensures var aabb, closest := BoxAabb(body), ClosestPoint(body, point);
      && aabb.minEast <= closest.east <= aabb.maxEast
      && aabb.minNorth <= closest.north <= aabb.maxNorth
  {
    hide LocalForward, LocalRight, Clamp, Abs, Right, Times, ClosestPoint, BoxAabb, Unit;
    var right := Right(body.forward);
    var along, across := LocalForward(body, point), LocalRight(body, point);
    WeightedCoordinate(along, body.halfLength, body.forward.east);
    WeightedCoordinate(along, body.halfLength, body.forward.north);
    WeightedCoordinate(across, body.halfWidth, right.east);
    WeightedCoordinate(across, body.halfWidth, right.north);
    ClosestPointCoordinates(body, point);
    BoundsCoordinates(body);
  }

  lemma {:induction false} ClosestPointCoordinates(body: ObbPrism, point: Vector2)
    requires ValidShape(body)
    ensures var closest, right := ClosestPoint(body, point), Right(body.forward);
      var along := Clamp(LocalForward(body, point), -body.halfLength, body.halfLength);
      var across := Clamp(LocalRight(body, point), -body.halfWidth, body.halfWidth);
      && closest.east == body.center.east + Times(body.forward.east, along) + Times(right.east, across)
      && closest.north == body.center.north + Times(body.forward.north, along) + Times(right.north, across)
  {
    hide LocalForward, LocalRight, Clamp, Right;
  }

  lemma {:induction false} BoundsCoordinates(body: ObbPrism)
    ensures var aabb, right := BoxAabb(body), Right(body.forward);
      var east := Times(body.halfLength, Abs(body.forward.east)) + Times(body.halfWidth, Abs(right.east));
      var north := Times(body.halfLength, Abs(body.forward.north)) + Times(body.halfWidth, Abs(right.north));
      aabb == HorizontalAabb(body.center.east - east, body.center.north - north,
                             body.center.east + east, body.center.north + north)
  {
    hide Abs, Right;
  }

  /** A capsule that reaches into the box's outline and vertical interval has a manifold and is a candidate. */
  lemma {:induction false} TrueCapsuleOverlapIsFound(
    grid: UniformGridIndex, body: ObbPrism, capsule: VerticalCapsule, velocity: Vector2, distance: real, index: nat)
    requires Outward(grid.below, grid.above) && ValidShape(body) && ValidCapsule(capsule)
    requires index < |grid.objects| && grid.objects[index] == CapsuleAabb(capsule)
    requires IsCapsuleDistance(body, capsule, distance) && distance < capsule.radius
    requires VerticalOverlap(body.centerUp, body.halfHeight, capsule.centerUp, capsule.halfHeight) > 0.0
    ensures IntersectObbVerticalCapsule(body, capsule, velocity, distance).Some?
    ensures grid.Candidate(BoxAabb(body), index)
  {
    hide ClosestPoint, BoxAabb, VerticalOverlap, CellRange, IsLength, SelectFace, BoxFace;
    var closest := ClosestPoint(body, capsule.center);
    LengthBoundsCoordinates(distance, closest.east - capsule.center.east, closest.north - capsule.center.north);
    ClosestPointInBounds(body, capsule.center);
    AabbIsProjection(body);
    TouchingIsCandidate(grid, BoxAabb(body), index);
  }
}
