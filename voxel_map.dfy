/** map.c's `init_map`: a closed room whose floor, ceiling and perimeter walls
    are solid, whose interior is air, and whose ceiling centre is the one
    emitter block, registered as the one light. */
module VoxelMap {
  import opened Common
  import opened Raycast
  import opened Light

  /** The emitter placed in the middle of the ceiling. */
  const LightCell: Cell := Cell(MapW / 2, MapH / 2, MapD - 1)

  /** A cell on the outer shell of the grid box. */
  predicate OnShell(c: Cell) {
    c.x == 0 || c.x == MapW - 1 || c.y == 0 || c.y == MapH - 1 || c.z == 0 || c.z == MapD - 1
  }

  /** The code the fill loop writes, before the emitter is placed. */
  function FillCode(x: int, y: int, z: int): byte {
    if z == 0 then FloorBlock
    else if z == MapD - 1 then WallBlock
    else if x == 0 || x == MapW - 1 || y == 0 || y == MapH - 1 then WallBlock
    else Air
  }

  /** The code of every cell once `init_map` has finished. */
  function InitialCode(c: Cell): (b: byte)
    ensures c.z == 0 ==> b == FloorBlock
    ensures c.z == MapD - 1 ==> b == (if c == LightCell then Emitter else WallBlock)
    ensures 0 < c.z < MapD - 1 && OnShell(c) ==> b == WallBlock
    ensures !OnShell(c) ==> b == Air
    ensures b == Emitter <==> c == LightCell
  {
    if c == LightCell then Emitter else FillCode(c.x, c.y, c.z)
  }

  /** Every cell of the outer shell is solid. */
  ghost predicate Enclosed(grid: array3<byte>)
    requires IsMap(grid)
    reads grid
  {
    forall c :: InBounds(c) && OnShell(c) ==> At(grid, c) != Air
  }

  /** In a closed room a traversal that starts in an air cell always ends on a
      solid cell: it can never leave the grid. */
  lemma {:induction false} EnclosedWalkHits(grid: array3<byte>, w: Walker)
    requires IsMap(grid) && Enclosed(grid) && w.Valid()
    requires InBounds(w.At()) && At(grid, w.At()) == Air
    ensures Walk(grid, w).Hit?
    decreases Potential(w)
  {
    var n := Advance(w);
    WalkUnfold(grid, w);
    assert !OnShell(w.At());
    if At(grid, n.At()) == Air {
      EnclosedWalkHits(grid, n);
    }
  }

  /** `init_map`: the fill loop over all cells, then the ceiling emitter and its light. */
  method InitMap(grid: array3<byte>, table: LightTable)
    requires IsMap(grid) && table.Valid()
    modifies grid, table, table.lights
    ensures table.Valid()
    ensures forall c :: InBounds(c) ==> At(grid, c) == InitialCode(c)
    ensures table.Contents() == [LightCell]
    ensures LightsMatchGrid(grid, table.Contents())
    ensures Enclosed(grid)
  {
    table.Reset();
    for x := 0 to MapW
      modifies grid
      invariant forall c :: InBounds(c) && c.x < x ==> At(grid, c) == FillCode(c.x, c.y, c.z)
    {
      for y := 0 to MapH
        modifies grid
        invariant forall c :: InBounds(c) && c.x < x ==> At(grid, c) == FillCode(c.x, c.y, c.z)
        invariant forall c :: InBounds(c) && c.x == x && c.y < y ==> At(grid, c) == FillCode(c.x, c.y, c.z)
      {
        for z := 0 to MapD
          modifies grid
          invariant forall c :: InBounds(c) && c.x < x ==> At(grid, c) == FillCode(c.x, c.y, c.z)
          invariant forall c :: InBounds(c) && c.x == x && c.y < y ==> At(grid, c) == FillCode(c.x, c.y, c.z)
          invariant forall c :: InBounds(c) && c.x == x && c.y == y && c.z < z ==> At(grid, c) == FillCode(c.x, c.y, c.z)
        {
          if z == 0 {
            grid[x, y, z] := FloorBlock;
          } else if z == MapD - 1 {
            grid[x, y, z] := WallBlock;
          } else if x == 0 || x == MapW - 1 || y == 0 || y == MapH - 1 {
            grid[x, y, z] := WallBlock;
          } else {
            grid[x, y, z] := Air;
          }
        }
      }
    }

    var lx, ly, lz := MapW / 2, MapH / 2, MapD - 1;
    grid[lx, ly, lz] := Emitter;
    table.Add(Cell(lx, ly, lz));
    assert table.Contents() == [LightCell];
    assert Distinct(table.Contents()) by {
      forall m ensures multiset([LightCell])[m] <= 1 {
      }
    }
  }
}
