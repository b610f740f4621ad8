/** The reusable grid traversal `cast_ray` of map.c: a 3D digital differential
    analyser that steps one cell at a time along the axis whose next grid
    line is nearest, stopping on the first solid cell or on leaving the grid. */
module Raycast {
  import opened Common

  /** Stand-in step length for a direction component that is exactly zero. */
  const Sentinel: real := 1000000000000000000000000000000.0

  datatype Axis = AxisX | AxisY | AxisZ

  /** The traversal's loop state: current cell, fixed per-axis step (+1 or -1),
      pending side distances and fixed per-axis delta distances. */
  datatype Walker = Walker(x: int, y: int, z: int,
                           stepX: int, stepY: int, stepZ: int,
                           sideX: real, sideY: real, sideZ: real,
                           deltaX: real, deltaY: real, deltaZ: real)
  {
    function At(): Cell { Cell(x, y, z) }

    predicate Valid() {
      (stepX == -1 || stepX == 1) && (stepY == -1 || stepY == 1) && (stepZ == -1 || stepZ == 1)
    }
  }

  /** What `cast_ray` reports: on a hit the solid cell, the cell visited just
      before it and the axis whose grid line was crossed last. */
  datatype CastResult = NoHit | Hit(cell: Cell, prev: Cell, side: Axis)

  /** Axis selection shared by both traversals: X only when its side distance
      is strictly the smallest, then Y when strictly below Z, else Z. */
  function ChooseAxis(sx: real, sy: real, sz: real): (a: Axis)
    ensures a == AxisX <==> sx < sy && sx < sz
    ensures a == AxisY <==> !(sx < sy && sx < sz) && sy < sz
    ensures a == AxisZ <==> !(sx < sy && sx < sz) && !(sy < sz)
    ensures SideDist(a, sx, sy, sz) <= sx && SideDist(a, sx, sy, sz) <= sy && SideDist(a, sx, sy, sz) <= sz
  {
    if sx < sy then
      if sx < sz then AxisX else AxisZ
    else
      if sy < sz then AxisY else AxisZ
  }

  function SideDist(a: Axis, sx: real, sy: real, sz: real): real {
    match a
    case AxisX => sx
    case AxisY => sy
    case AxisZ => sz
  }

  /** The cell one step from `c` along axis `a`, in the walker's direction on that axis. */
  function Moved(c: Cell, a: Axis, w: Walker): Cell {
    match a
    case AxisX => Cell(c.x + w.stepX, c.y, c.z)
    case AxisY => Cell(c.x, c.y + w.stepY, c.z)
    case AxisZ => Cell(c.x, c.y, c.z + w.stepZ)
  }

  function Choice(w: Walker): Axis {
    ChooseAxis(w.sideX, w.sideY, w.sideZ)
  }

  /** One iteration of the traversal loop. */
  function Advance(w: Walker): (n: Walker)
    ensures n.At() == Moved(w.At(), Choice(w), w)
    ensures n.stepX == w.stepX && n.stepY == w.stepY && n.stepZ == w.stepZ
    ensures n.deltaX == w.deltaX && n.deltaY == w.deltaY && n.deltaZ == w.deltaZ
  {
    match Choice(w)
    case AxisX => w.(x := w.x + w.stepX, sideX := w.sideX + w.deltaX)
    case AxisY => w.(y := w.y + w.stepY, sideY := w.sideY + w.deltaY)
    case AxisZ => w.(z := w.z + w.stepZ, sideZ := w.sideZ + w.deltaZ)
  }

  /** Cells left before the walker leaves the grid on one axis, counting its own. */
  function Ahead(pos: int, step: int, size: int): int {
    if step > 0 then size - pos else pos + 1
  }

  /** Termination measure: inside the grid, the cells left ahead on all three
      axes; outside, one more than any in-grid value. */
  function Potential(w: Walker): (p: nat)
    ensures InBounds(w.At()) ==> p <= MapW + MapH + MapD
  {
    if InBounds(w.At()) then
      Ahead(w.x, w.stepX, MapW) + Ahead(w.y, w.stepY, MapH) + Ahead(w.z, w.stepZ, MapD)
    else
      MapW + MapH + MapD + 1
  }

  lemma AdvanceDecreases(w: Walker)
    requires w.Valid()
    ensures Advance(w).Valid()
    ensures InBounds(Advance(w).At()) ==> Potential(Advance(w)) < Potential(w)
  {
  }

  /** The traversal loop of `cast_ray` once it has started: step, leave with no
      hit when out of the grid, stop on a nonzero cell, otherwise go on. */
  function Walk(grid: array3<byte>, w: Walker): CastResult
    requires IsMap(grid) && w.Valid()
    reads grid
    decreases Potential(w)
  {
    var n := Advance(w);
    AdvanceDecreases(w);
    if !InBounds(n.At()) then NoHit
    else if At(grid, n.At()) > 0 then Hit(n.At(), w.At(), Choice(w))
    else Walk(grid, n)
  }

  /** One unfolding of `Walk`, stated for use inside the loop of `CastRay`. */
  lemma WalkUnfold(grid: array3<byte>, w: Walker)
    requires IsMap(grid) && w.Valid()
    ensures Advance(w).Valid()
    ensures InBounds(Advance(w).At()) ==> Potential(Advance(w)) < Potential(w)
    ensures Walk(grid, w) ==
      if !InBounds(Advance(w).At()) then NoHit
      else if At(grid, Advance(w).At()) > 0 then Hit(Advance(w).At(), w.At(), Choice(w))
      else Walk(grid, Advance(w))
  {
    AdvanceDecreases(w);
  }

  /** The number of loop iterations the traversal runs from `w`. */
  function Iterations(grid: array3<byte>, w: Walker): (k: nat)
    requires IsMap(grid) && w.Valid()
    reads grid
    ensures 1 <= k <= Potential(w)
    decreases Potential(w)
  {
    var n := Advance(w);
    AdvanceDecreases(w);
    if !InBounds(n.At()) || At(grid, n.At()) > 0 then 1
    else 1 + Iterations(grid, n)
  }

  function DeltaDist(d: real): (r: real)
    ensures r > 0.0
  {
    if d == 0.0 then Sentinel else Abs(1.0 / d)
  }

  function StepOf(d: real): int {
    if d < 0.0 then -1 else 1
  }

  function InitialSideDist(o: real, cell: int, d: real): real {
    if d < 0.0 then (o - cell as real) * DeltaDist(d) else (cell as real + 1.0 - o) * DeltaDist(d)
  }

  /** The per-axis set-up: a positive delta distance, a step against the sign
      of the component, and, from the cell the origin lies in, a first
      grid line no further away than one delta distance. */
  lemma AxisSetUpBounds(o: real, cell: int, d: real)
    ensures DeltaDist(d) > 0.0
    ensures StepOf(d) == -1 <==> d < 0.0
    ensures StepOf(d) == 1 <==> d >= 0.0
    ensures 0.0 <= o && cell == Trunc(o) ==> 0.0 <= InitialSideDist(o, cell, d) <= DeltaDist(d)
  {
    if 0.0 <= o && cell == Trunc(o) {
      var k := DeltaDist(d);
      var f := if d < 0.0 then o - cell as real else cell as real + 1.0 - o;
      assert 0.0 <= f <= 1.0;
      assert InitialSideDist(o, cell, d) == f * k;
      FractionBound(f, k);
    }
  }

  /** A fraction of a positive distance lies between zero and the distance. */
  lemma FractionBound(f: real, k: real)
    requires 0.0 <= f <= 1.0 && k > 0.0
    ensures 0.0 <= f * k <= k
  {
    assert k - f * k == (1.0 - f) * k;
  }

  /** The traversal's initial state for origin `o` and direction `d`. */
  function Start(o: Vec3, d: Vec3): (w: Walker)
    ensures w.Valid()
    ensures w.At() == Cell(Trunc(o.x), Trunc(o.y), Trunc(o.z))
    ensures w.stepX == StepOf(d.x) && w.stepY == StepOf(d.y) && w.stepZ == StepOf(d.z)
  {
    var x, y, z := Trunc(o.x), Trunc(o.y), Trunc(o.z);
    Walker(x, y, z, StepOf(d.x), StepOf(d.y), StepOf(d.z),
           InitialSideDist(o.x, x, d.x), InitialSideDist(o.y, y, d.y), InitialSideDist(o.z, z, d.z),
           DeltaDist(d.x), DeltaDist(d.y), DeltaDist(d.z))
  }

  /** `cast_ray` as a value: `dist` starts at 0 and is never advanced, so
      `max_dist` only decides whether the loop runs at all. */
  function Cast(grid: array3<byte>, o: Vec3, d: Vec3, maxDist: real): CastResult
    requires IsMap(grid)
    reads grid
  {
    if 0.0 < maxDist then Walk(grid, Start(o, d)) else NoHit
  }

  /** Signed progress of `c` over `w`'s cell on one axis, measured in the step direction. */
  function Along(from: int, to: int, step: int): int {
    if step > 0 then to - from else from - to
  }

  /** `c` lies on the walker's side of its cell on every axis and is not its cell. */
  predicate AheadOf(w: Walker, c: Cell) {
    Along(w.x, c.x, w.stepX) >= 0 && Along(w.y, c.y, w.stepY) >= 0 && Along(w.z, c.z, w.stepZ) >= 0 &&
    Along(w.x, c.x, w.stepX) + Along(w.y, c.y, w.stepY) + Along(w.z, c.z, w.stepZ) >= 1
  }

  lemma {:induction false} WalkHitIsSolid(grid: array3<byte>, w: Walker)
    requires IsMap(grid) && w.Valid()
    ensures var r := Walk(grid, w); r.Hit? ==> InBounds(r.cell) && At(grid, r.cell) > 0
    decreases Potential(w)
  {
    var n := Advance(w);
    AdvanceDecreases(w);
    if InBounds(n.At()) && At(grid, n.At()) == 0 {
      WalkHitIsSolid(grid, n);
    }
  }

  lemma {:induction false} WalkHitAdjacent(grid: array3<byte>, w: Walker)
    requires IsMap(grid) && w.Valid()
    ensures var r := Walk(grid, w); r.Hit? ==> r.cell == Moved(r.prev, r.side, w)
    decreases Potential(w)
  {
    var n := Advance(w);
    AdvanceDecreases(w);
    if InBounds(n.At()) && At(grid, n.At()) == 0 {
      WalkHitAdjacent(grid, n);
    }
  }

  lemma {:induction false} WalkHitAhead(grid: array3<byte>, w: Walker)
    requires IsMap(grid) && w.Valid()
    ensures var r := Walk(grid, w); r.Hit? ==> AheadOf(w, r.cell) && r.cell != w.At()
    decreases Potential(w)
  {
    var n := Advance(w);
    AdvanceDecreases(w);
    if InBounds(n.At()) && At(grid, n.At()) == 0 {
      WalkHitAhead(grid, n);
    }
  }

  lemma {:induction false} WalkPrevOpen(grid: array3<byte>, w: Walker)
    requires IsMap(grid) && w.Valid()
    ensures var r := Walk(grid, w);
      r.Hit? ==> r.prev == w.At() || (InBounds(r.prev) && At(grid, r.prev) == Air)
    decreases Potential(w)
  {
    var n := Advance(w);
    AdvanceDecreases(w);
    if InBounds(n.At()) && At(grid, n.At()) == 0 {
      WalkPrevOpen(grid, n);
    }
  }

  /** The walker after `i` loop steps; the cells it visits do not depend on the grid. */
  function Steps(w: Walker, i: nat): Walker
    decreases i
  {
    if i == 0 then w else Steps(Advance(w), i - 1)
  }

  /** A hit whose previous cell is not the start cell was reached along a path
      of `k` steps ending at that previous cell, every cell of it in-grid air. */
  lemma {:induction false} WalkHitPath(grid: array3<byte>, w: Walker, t: Cell) returns (k: nat)
    requires IsMap(grid) && w.Valid()
    requires var r := Walk(grid, w); r.Hit? && r.prev == t && t != w.At()
    ensures 1 <= k && Steps(w, k).At() == t
    ensures forall i :: 1 <= i <= k ==> InBounds(Steps(w, i).At()) && At(grid, Steps(w, i).At()) == Air
    decreases Potential(w)
  {
    var n := Advance(w);
    WalkUnfold(grid, w);
    if n.At() == t {
      k := 1;
    } else {
      var k' := WalkHitPath(grid, n, t);
      k := k' + 1;
      forall i | 1 <= i <= k
        ensures InBounds(Steps(w, i).At()) && At(grid, Steps(w, i).At()) == Air
      {
        if i > 1 {
          assert Steps(w, i) == Steps(n, i - 1);
        }
      }
    }
  }

  /** A path of `k` in-grid steps whose cells are air except the cell `t` it
      ends at, which is solid, makes the traversal hit `t`. */
  lemma {:induction false} WalkAlongPath(grid: array3<byte>, w: Walker, k: nat, t: Cell)
    requires IsMap(grid) && w.Valid()
    requires 1 <= k && Steps(w, k).At() == t && InBounds(t) && At(grid, t) > 0
    requires forall i :: 1 <= i <= k ==>
               InBounds(Steps(w, i).At()) && (Steps(w, i).At() == t || At(grid, Steps(w, i).At()) == Air)
    ensures Walk(grid, w).Hit? && Walk(grid, w).cell == t
    decreases k
  {
    var n := Advance(w);
    WalkUnfold(grid, w);
    assert Steps(w, 1) == n;
    if n.At() != t {
      forall i | 1 <= i <= k - 1
        ensures InBounds(Steps(n, i).At()) && (Steps(n, i).At() == t || At(grid, Steps(n, i).At()) == Air)
      {
        assert Steps(w, i + 1) == Steps(n, i);
      }
      assert k > 1;
      assert Steps(w, k) == Steps(n, k - 1);
      WalkAlongPath(grid, n, k - 1, t);
    }
  }

  /** The per-axis set-up both traversals repeat for x, y and z: the delta
      distance (the sentinel for a zero component), the step direction and
      the distance to the first grid line. */
  method SetUpAxis(o: real, cell: int, d: real) returns (delta: real, step: int, side: real)
    ensures delta == DeltaDist(d) && step == StepOf(d) && side == InitialSideDist(o, cell, d)
  {
    delta := if d == 0.0 then Sentinel else Abs(1.0 / d);
    if d < 0.0 {
      step := -1;
      side := (o - cell as real) * delta;
    } else {
      step := 1;
      side := (cell as real + 1.0 - o) * delta;
    }
  }

  /** The reusable traversal of map.c. The C out-pointers become the fields of
      a `Hit`, so they carry values only on a hit. */
  method CastRay(grid: array3<byte>, start: Vec3, dir: Vec3, maxDist: real) returns (r: CastResult)
    requires IsMap(grid)
    ensures r == Cast(grid, start, dir, maxDist)
    ensures maxDist <= 0.0 ==> r == NoHit
    ensures r.Hit? ==> InBounds(r.cell) && At(grid, r.cell) > 0
    ensures r.Hit? ==> r.cell == Moved(r.prev, r.side, Start(start, dir))
    ensures r.Hit? ==> AheadOf(Start(start, dir), r.cell)
  {
    var mapX, mapY, mapZ := Trunc(start.x), Trunc(start.y), Trunc(start.z);

    var deltaDistX, stepX, sideDistX := SetUpAxis(start.x, mapX, dir.x);
    var deltaDistY, stepY, sideDistY := SetUpAxis(start.y, mapY, dir.y);
    var deltaDistZ, stepZ, sideDistZ := SetUpAxis(start.z, mapZ, dir.z);

    var hit := false;
    var side := AxisX;  // C starts from -1; it is read only after a step has set it
    var dist := 0.0;
    var lastX, lastY, lastZ := mapX, mapY, mapZ;

    ghost var w0 := Start(start, dir);
    assert w0 == Walker(mapX, mapY, mapZ, stepX, stepY, stepZ,
                        sideDistX, sideDistY, sideDistZ, deltaDistX, deltaDistY, deltaDistZ);

    while !hit && dist < maxDist
      invariant dist == 0.0
      invariant Walker(mapX, mapY, mapZ, stepX, stepY, stepZ,
                       sideDistX, sideDistY, sideDistZ, deltaDistX, deltaDistY, deltaDistZ).Valid()
      invariant !hit ==> Walk(grid, Walker(mapX, mapY, mapZ, stepX, stepY, stepZ,
                                           sideDistX, sideDistY, sideDistZ,
                                           deltaDistX, deltaDistY, deltaDistZ)) == Walk(grid, w0)
      invariant hit ==> 0.0 < maxDist &&
                        Walk(grid, w0) == Hit(Cell(mapX, mapY, mapZ), Cell(lastX, lastY, lastZ), side)
      decreases if hit then 0 else 1 + Potential(Walker(mapX, mapY, mapZ, stepX, stepY, stepZ,
                                                        sideDistX, sideDistY, sideDistZ,
                                                        deltaDistX, deltaDistY, deltaDistZ))
    {
      ghost var cur := Walker(mapX, mapY, mapZ, stepX, stepY, stepZ,
                              sideDistX, sideDistY, sideDistZ, deltaDistX, deltaDistY, deltaDistZ);
      lastX, lastY, lastZ := mapX, mapY, mapZ;

      if sideDistX < sideDistY {
        if sideDistX < sideDistZ {
          sideDistX := sideDistX + deltaDistX;
          mapX := mapX + stepX;
          side := AxisX;
        } else {
          sideDistZ := sideDistZ + deltaDistZ;
          mapZ := mapZ + stepZ;
          side := AxisZ;
        }
      } else {
        if sideDistY < sideDistZ {
          sideDistY := sideDistY + deltaDistY;
          mapY := mapY + stepY;
          side := AxisY;
        } else {
          sideDistZ := sideDistZ + deltaDistZ;
          mapZ := mapZ + stepZ;
          side := AxisZ;
        }
      }
      ghost var next := Walker(mapX, mapY, mapZ, stepX, stepY, stepZ,
                               sideDistX, sideDistY, sideDistZ, deltaDistX, deltaDistY, deltaDistZ);
      assert next == Advance(cur) && side == Choice(cur);
      WalkUnfold(grid, cur);

      if mapX < 0 || mapX >= MapW || mapY < 0 || mapY >= MapH || mapZ < 0 || mapZ >= MapD {
        return NoHit;
      }

      if grid[mapX, mapY, mapZ] > 0 {
        hit := true;
      }
    }

    if hit {
      r := Hit(Cell(mapX, mapY, mapZ), Cell(lastX, lastY, lastZ), side);
    } else {
      r := NoHit;
    }
    WalkHitIsSolid(grid, w0);
    WalkHitAdjacent(grid, w0);
    WalkHitAhead(grid, w0);
  }
}
