/** Shared constants, value types and helpers of the voxel tester: the world
    size, the screen size, the light-table capacity, block codes, grid
    coordinates, the player pose and the game mode. */
module Common {

  // World and screen size, light-table capacity.
  const MapW: int := 30
  const MapH: int := 30
  const MapD: int := 5
  const ScreenW: int := 160
  const ScreenH: int := 120
  const MaxLights: int := 64

  /** The C `M_PI` constant, as a real. */
  const Pi: real := 3.14159265358979323846

  /** A grid cell holds an unsigned 8-bit block code. */
  type byte = x: int | 0 <= x < 256

  // Block codes: 0 is air, 1..5 are materials, 3 is the self-lit emitter.
  const Air: byte := 0
  const FloorBlock: byte := 1
  const WallBlock: byte := 2
  const Emitter: byte := 3
  const MaxBlockType: int := 5

  /** Integer cell coordinates; the light table stores the same triple. */
  datatype Cell = Cell(x: int, y: int, z: int)

  /** A point or direction in grid space. */
  datatype Vec3 = Vec3(x: real, y: real, z: real)

  /** The player pose: continuous position plus yaw and pitch in radians. */
  datatype Player = Player(x: real, y: real, z: real, yaw: real, pitch: real)

  /** The player's eye: where both the primary rays and the edit ray start. */
  function Eye(p: Player): Vec3 {
    Vec3(p.x, p.y, p.z)
  }

  datatype Mode = MoveLook | Edit

  predicate InBounds(c: Cell) {
    0 <= c.x < MapW && 0 <= c.y < MapH && 0 <= c.z < MapD
  }

  /** The grid `uint8_t map[MAP_W][MAP_H][MAP_D]`. */
  predicate IsMap(grid: array3<byte>) {
    grid.Length0 == MapW && grid.Length1 == MapH && grid.Length2 == MapD
  }

  function At(grid: array3<byte>, c: Cell): byte
    requires IsMap(grid) && InBounds(c)
    reads grid
  {
    grid[c.x, c.y, c.z]
  }

  function Abs(r: real): real {
    if r < 0.0 then -r else r
  }

  function AbsInt(n: int): int {
    if n < 0 then -n else n
  }

  /** C's `(int)` conversion of a float: truncation toward zero. */
  function Trunc(r: real): (t: int)
    ensures r >= 0.0 ==> t as real <= r < t as real + 1.0
    ensures r < 0.0 ==> t as real - 1.0 < r <= t as real
  {
    if r >= 0.0 then r.Floor else -((-r).Floor)
  }
}
