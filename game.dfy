/** main.c: the game state (grid, light table, player pose, mode and selected
    block type), `game_start`, and `game_input`'s movement, clamps, mode
    switch and edit actions. */
module Game {
  import opened Common
  import opened Raycast
  import opened Light
  import opened VoxelMap
  import opened Render

  const MoveSpeed: real := 5.0
  const RotSpeed: real := 2.0
  /** Joystick and trigger readings at or below this magnitude are ignored. */
  const DeadZone: int := 200
  /** Full-scale joystick reading. */
  const JoyScale: real := 2048.0
  /** How far the edit ray may reach (it only decides whether the traversal runs). */
  const EditReach: real := 10.0
  /** 89 degrees in radians. */
  const MaxPitch: real := 89.0 * Pi / 180.0
  /** Closest a committed x or y may come to the grid's sides. */
  const WallMargin: real := 0.1
  /** Closest flying may bring z to the floor or ceiling plane. */
  const FlyMargin: real := 0.5

  /** One frame's inputs: edge-triggered presses (`select`, A, B, Y), raw
      joystick and trigger readings, and the volume buttons held down. */
  datatype Inputs = Inputs(select: bool, joyX: int, joyY: int, volUp: bool, volDown: bool,
                           brackL: int, brackR: int, pressA: bool, pressB: bool, pressY: bool)

  // ---------------------------------------------------------------------------
  // Mode and block type

  /** The select button switches between moving/looking and editing. */
  function Toggled(m: Mode): (r: Mode)
    ensures r != m
  {
    if m == MoveLook then Edit else MoveLook
  }

  /** The Y button cycles the block type 1, 2, 3, 4, 5, 1, ... */
  function NextBlockType(s: int): (r: int)
    ensures 1 <= s <= MaxBlockType ==> 1 <= r <= MaxBlockType
    ensures 1 <= s < MaxBlockType ==> r == s + 1
    ensures s == MaxBlockType ==> r == 1
  {
    var n := s + 1;
    if n > MaxBlockType then 1 else n
  }

  /** Five presses bring the selection back to where it started. */
  lemma NextBlockTypeCycles(s: int)
    requires 1 <= s <= MaxBlockType
    ensures NextBlockType(NextBlockType(NextBlockType(NextBlockType(NextBlockType(s))))) == s
  {
  }

  // ---------------------------------------------------------------------------
  // Pose updates

  /** A player pose inside the world: x and y at least the margin away from
      the grid's sides, z between the fly limits, pitch within 89 degrees. */
  predicate InWorld(p: Player) {
    WallMargin <= p.x < MapW as real - WallMargin &&
    WallMargin <= p.y < MapH as real - WallMargin &&
    FlyMargin <= p.z <= MapD as real - FlyMargin &&
    -MaxPitch <= p.pitch <= MaxPitch
  }

  function Dt(dtUsec: nat): (dt: real)
    ensures dt >= 0.0
  {
    dtUsec as real / 1000000.0
  }

  /** A new x or y is committed only inside the margins; otherwise the old one stays. */
  function Commit(cur: real, next: real, size: int): (r: real)
    ensures r == next || r == cur
    ensures WallMargin <= cur < size as real - WallMargin ==> WallMargin <= r < size as real - WallMargin
    ensures !(WallMargin <= next < size as real - WallMargin) ==> r == cur
    ensures WallMargin <= next < size as real - WallMargin ==> r == next
  {
    if next >= WallMargin && next < size as real - WallMargin then next else cur
  }

  /** Flying up, stopped at the upper limit. */
  function FlyUp(z: real, step: real): (r: real)
    ensures r <= MapD as real - FlyMargin
    ensures FlyMargin <= z && 0.0 <= step ==> FlyMargin <= r
    ensures z + step < MapD as real - FlyMargin ==> r == z + step
    ensures z + step >= MapD as real - FlyMargin ==> r == MapD as real - FlyMargin
  {
    var n := z + step;
    if n >= MapD as real - FlyMargin then MapD as real - FlyMargin else n
  }

  /** Flying down, stopped at the lower limit. */
  function FlyDown(z: real, step: real): (r: real)
    ensures FlyMargin <= r
    ensures z <= MapD as real - FlyMargin && 0.0 <= step ==> r <= MapD as real - FlyMargin
    ensures z - step >= FlyMargin ==> r == z - step
    ensures z - step < FlyMargin ==> r == FlyMargin
  {
    var n := z - step;
    if n < FlyMargin then FlyMargin else n
  }

  /** The final pitch clamp of every input step. */
  function ClampPitch(pitch: real): (r: real)
    ensures -MaxPitch <= r <= MaxPitch
    ensures -MaxPitch <= pitch <= MaxPitch ==> r == pitch
    ensures pitch > MaxPitch ==> r == MaxPitch
    ensures pitch < -MaxPitch ==> r == -MaxPitch
  {
    var r := if pitch > MaxPitch then MaxPitch else pitch;
    if r < -MaxPitch then -MaxPitch else r
  }

  function MoveStep(joyY: int, dt: real): real {
    -(joyY as real / JoyScale) * MoveSpeed * dt
  }

  function TurnStep(joyX: int, dt: real): real {
    (joyX as real / JoyScale) * RotSpeed * dt
  }

  /** Joystick Y walks along the yaw direction, each axis committed on its own. */
  function Walked(p: Player, inp: Inputs, dt: real, cosf: real -> real, sinf: real -> real): Player {
    if AbsInt(inp.joyY) > DeadZone then
      var move := MoveStep(inp.joyY, dt);
      p.(x := Commit(p.x, p.x + cosf(p.yaw) * move, MapW),
         y := Commit(p.y, p.y + sinf(p.yaw) * move, MapH))
    else p
  }

  /** Joystick X turns, inverted. */
  function Turned(p: Player, inp: Inputs, dt: real): Player {
    if AbsInt(inp.joyX) > DeadZone then p.(yaw := p.yaw - TurnStep(inp.joyX, dt)) else p
  }

  /** Move/look mode: the volume buttons fly, the triggers pitch. */
  function Flown(p: Player, inp: Inputs, dt: real): Player {
    var z1 := if inp.volUp then FlyUp(p.z, MoveSpeed * dt) else p.z;
    var z2 := if inp.volDown then FlyDown(z1, MoveSpeed * dt) else z1;
    var p1 := if inp.brackR > DeadZone then p.pitch + RotSpeed * dt else p.pitch;
    var p2 := if inp.brackL > DeadZone then p1 - RotSpeed * dt else p1;
    p.(z := z2, pitch := p2)
  }

  /** The pose after one input step in mode `m` (the mode after the select press). */
  function NextPose(p: Player, m: Mode, inp: Inputs, dt: real, cosf: real -> real, sinf: real -> real): (q: Player)
    ensures -MaxPitch <= q.pitch <= MaxPitch
    ensures m == Edit ==> q.z == p.z
  {
    var p1 := Turned(Walked(p, inp, dt, cosf, sinf), inp, dt);
    var p2 := if m == MoveLook then Flown(p1, inp, dt) else p1;
    p2.(pitch := ClampPitch(p2.pitch))
  }

  /** An input step never takes the player out of the world. */
  lemma NextPoseInWorld(p: Player, m: Mode, inp: Inputs, dt: real, cosf: real -> real, sinf: real -> real)
    requires InWorld(p) && dt >= 0.0
    ensures InWorld(NextPose(p, m, inp, dt, cosf, sinf))
  {
  }

  /** The cell the player stands in, by C's truncating conversion. */
  function PlayerCell(p: Player): Cell {
    Cell(Trunc(p.x), Trunc(p.y), Trunc(p.z))
  }

  /** The view direction for the pose, from the supplied cosine and sine. */
  function ViewDir(p: Player, cosf: real -> real, sinf: real -> real): Vec3 {
    Forward(cosf(p.yaw), sinf(p.yaw), cosf(p.pitch), sinf(p.pitch))
  }

  /** Where a place action writes, if anywhere: the cell before the hit, when
      it is inside the grid and not the player's own cell. */
  predicate Placeable(c: CastResult, p: Player) {
    c.Hit? && InBounds(c.prev) && c.prev != PlayerCell(p)
  }

  /** A place action never overwrites anything but air: the cell before a hit
      is the start cell or an air cell, and the start cell is excluded. */
  lemma PlaceTargetIsAir(grid: array3<byte>, p: Player, dir: Vec3)
    requires IsMap(grid)
    ensures var c := Cast(grid, Eye(p), dir, EditReach);
            Placeable(c, p) ==> At(grid, c.prev) == Air
  {
    WalkPrevOpen(grid, Start(Eye(p), dir));
  }

  /** The two grid snapshots agree on every cell outside `changed`. */
  ghost predicate SameExcept(g0: imap<Cell, byte>, g1: imap<Cell, byte>, changed: set<Cell>) {
    forall q :: q in g0 && q in g1 && q !in changed ==> g1[q] == g0[q]
  }

  /** The grid and the table are left alone. */
  ghost predicate Unchanged(g0: imap<Cell, byte>, g1: imap<Cell, byte>, l0: seq<LightSource>, l1: seq<LightSource>) {
    SameExcept(g0, g1, {}) && l1 == l0
  }

  /** The place action (A) with ray result `c` from pose `p`: a placeable cell
      before the hit, which was air, now holds `sel`, nothing else changes, and
      an emitter's light is appended to the table. */
  ghost predicate PlaceOutcome(c: CastResult, p: Player, sel: int, g0: imap<Cell, byte>, g1: imap<Cell, byte>,
                               l0: seq<LightSource>, l1: seq<LightSource>)
  {
    if Placeable(c, p) then
      c.prev in g0 && c.prev in g1 && g0[c.prev] == Air && g1[c.prev] as int == sel &&
      SameExcept(g0, g1, {c.prev}) &&
      l1 == (if sel == Emitter as int then Appended(l0, c.prev) else l0)
    else
      Unchanged(g0, g1, l0, l1)
  }

  /** The break action (B) with ray result `c`: the hit cell is now air and has
      no light, nothing else changes, and an emitter's light is removed. */
  ghost predicate BreakOutcome(c: CastResult, g0: imap<Cell, byte>, g1: imap<Cell, byte>,
                               l0: seq<LightSource>, l1: seq<LightSource>)
  {
    if c.Hit? then
      c.cell in g0 && c.cell in g1 && g1[c.cell] == Air && c.cell !in l1 &&
      SameExcept(g0, g1, {c.cell}) &&
      l1 == (if g0[c.cell] == Emitter then Removed(l0, c.cell) else l0)
    else
      Unchanged(g0, g1, l0, l1)
  }

  /** A and B together, where the break casts again after the place. When the
      place wrote its block, the second ray stops on that block, so the break
      takes it away again and the grid and the table end as they began;
      otherwise the place did nothing and the break acts along the same ray. */
  ghost predicate BothOutcome(c: CastResult, p: Player, g0: imap<Cell, byte>, g1: imap<Cell, byte>,
                              l0: seq<LightSource>, l1: seq<LightSource>)
  {
    if Placeable(c, p) then Unchanged(g0, g1, l0, l1) else BreakOutcome(c, g0, g1, l0, l1)
  }

  /** What the edit actions do to the grid (snapshots `g0` before, `g1` after)
      and the light table (`l0`, `l1`) for the place button `a` and the break
      button `b`; with neither pressed nothing changes. */
  ghost predicate EditOutcome(a: bool, b: bool, c: CastResult, p: Player, sel: int,
                              g0: imap<Cell, byte>, g1: imap<Cell, byte>,
                              l0: seq<LightSource>, l1: seq<LightSource>)
  {
    if a && !b then PlaceOutcome(c, p, sel, g0, g1, l0, l1)
    else if !a && b then BreakOutcome(c, g0, g1, l0, l1)
    else if a && b then BothOutcome(c, p, g0, g1, l0, l1)
    else Unchanged(g0, g1, l0, l1)
  }

  /** A place that wrote a solid block into the air cell before the hit,
      followed by a break whose ray stops on that block, restores the grid and
      the table: an emitter's light is appended and then removed again. */
  lemma PlaceThenBreakRestores(c1: CastResult, c2: CastResult, p: Player, sel: int,
                               g0: imap<Cell, byte>, g1: imap<Cell, byte>, g2: imap<Cell, byte>,
                               l0: seq<LightSource>, l1: seq<LightSource>, l2: seq<LightSource>)
    requires forall q :: (q in g0 <==> q in g1) && (q in g1 <==> q in g2)
    requires Placeable(c1, p) && c1.prev !in l0
    requires PlaceOutcome(c1, p, sel, g0, g1, l0, l1)
    requires c2.Hit? && c2.cell == c1.prev
    requires BreakOutcome(c2, g1, g2, l1, l2)
    ensures Unchanged(g0, g2, l0, l2)
  {
    forall q | q in g0 && q in g2
      ensures g2[q] == g0[q]
    {
      assert q in g1;
    }
    if sel == Emitter as int {
      AppendedThenRemoved(l0, c1.prev);
    }
  }

  /** The light table after overwriting cell `c`, which held `was`, with
      `code`: an emitter's light is removed first, a new emitter's light is
      appended after. */
  function Relit(s: seq<LightSource>, c: Cell, was: byte, code: byte): seq<LightSource> {
    var kept := if was == Emitter then Removed(s, c) else s;
    if code == Emitter then Appended(kept, c) else kept
  }

  /** The starting pose of `game_start`. */
  const StartPose: Player := Player(MapW as real / 2.0, MapH as real / 2.0, 2.5, 0.0, 0.0)

  /** In the freshly built room every edit ray from the starting pose hits a block. */
  lemma StartRayHits(grid: array3<byte>, dir: Vec3)
    requires IsMap(grid)
    requires forall c :: InBounds(c) ==> At(grid, c) == InitialCode(c)
    ensures Cast(grid, Eye(StartPose), dir, EditReach).Hit?
  {
    var w := Start(Eye(StartPose), dir);
    assert w.At() == Cell(15, 15, 2);
    assert At(grid, w.At()) == InitialCode(Cell(15, 15, 2));
    EnclosedWalkHits(grid, w);
  }

  // ---------------------------------------------------------------------------
  // The game state

  class World {
    const grid: array3<byte>
    const table: LightTable
    var player: Player
    var mode: Mode
    var selected: int

    /** The invariant `game_input` keeps: the selected type is 1..5, the
        player is inside the world, and the light table lists emitter cells
        only, each once. */
    ghost predicate Valid()
      reads this, grid, table, table.lights
    {
      IsMap(grid) && table.Valid() &&
      1 <= selected <= MaxBlockType &&
      InWorld(player) &&
      LightsMatchGrid(grid, table.Contents())
    }

    /** The grid as a map from the in-bounds cells to their codes. */
    ghost function Cells(): (m: imap<Cell, byte>)
      requires IsMap(grid)
      reads grid
      ensures forall q :: q in m <==> InBounds(q)
      ensures forall q :: InBounds(q) ==> m[q] == At(grid, q)
    {
      imap q | InBounds(q) :: At(grid, q)
    }

    /** The globals' initial values followed by `game_start`. */
    constructor ()
      ensures Valid()
      ensures player == StartPose && mode == MoveLook && selected == 1
      ensures forall c :: InBounds(c) ==> At(grid, c) == InitialCode(c)
      ensures table.Contents() == [LightCell]
      ensures fresh(grid) && fresh(table) && fresh(table.lights)
    {
      grid := new byte[MapW, MapH, MapD];
      table := new LightTable();
      player := Player(0.0, 0.0, 0.0, 0.0, 0.0);
      mode := MoveLook;
      selected := 1;
      new;
      GameStart();
    }

    /** `game_start`: build the room, put the player in its middle, move/look mode. */
    method GameStart()
      requires IsMap(grid) && table.Valid() && 1 <= selected <= MaxBlockType
      modifies this, grid, table, table.lights
      ensures Valid()
      ensures player == StartPose && mode == MoveLook && selected == old(selected)
      ensures forall c :: InBounds(c) ==> At(grid, c) == InitialCode(c)
      ensures table.Contents() == [LightCell]
    {
      InitMap(grid, table);
      player := Player(MapW as real / 2.0, MapH as real / 2.0, 2.5, 0.0, 0.0);
      mode := MoveLook;
    }

    /** The write of a place action: drop the light of an emitter that is
        overwritten, write the code, and register a new emitter's light. */
    method PutBlock(t: Cell, code: byte)
      requires Valid() && InBounds(t)
      modifies grid, table, table.lights
      ensures Valid()
      ensures At(grid, t) == code
      ensures forall q :: InBounds(q) && q != t ==> At(grid, q) == old(At(grid, q))
      ensures table.Contents() == Relit(old(table.Contents()), t, old(At(grid, t)), code)
    {
      ghost var s0 := table.Contents();
      if grid[t.x, t.y, t.z] == Emitter {
        table.Remove(t);
      }
      ghost var s1 := table.Contents();
      RemovedDistinct(s0, t);
      assert t !in s1;
      grid[t.x, t.y, t.z] := code;
      if code == Emitter {
        table.Add(t);
      }
      AppendedDistinct(s1, t);
    }

    /** The A button in edit mode: cast from the eye and, on a hit, write the
        selected type into the cell before it, keeping the light table in step. */
    method PlaceBlock(dir: Vec3)
      requires Valid()
      modifies grid, table, table.lights
      ensures Valid()
      ensures var c := old(Cast(grid, Eye(player), dir, EditReach));
              if Placeable(c, player) then
                old(At(grid, c.prev)) == Air && At(grid, c.prev) == selected &&
                (forall q :: InBounds(q) && q != c.prev ==> At(grid, q) == old(At(grid, q))) &&
                table.Contents() == (if selected == Emitter then Appended(old(table.Contents()), c.prev)
                                     else old(table.Contents()))
              else
                (forall q :: InBounds(q) ==> At(grid, q) == old(At(grid, q))) &&
                table.Contents() == old(table.Contents())
      ensures PlaceOutcome(old(Cast(grid, Eye(player), dir, EditReach)), player, selected,
                           old(Cells()), Cells(), old(table.Contents()), table.Contents())
      ensures !Placeable(old(Cast(grid, Eye(player), dir, EditReach)), player) ==> unchanged(grid)
    {
      var c := CastRay(grid, Eye(player), dir, EditReach);
      if c.Hit? {
        var px, py, pz := c.prev.x, c.prev.y, c.prev.z;
        if px >= 0 && px < MapW && py >= 0 && py < MapH && pz >= 0 && pz < MapD {
          if !(Trunc(player.x) == px && Trunc(player.y) == py && Trunc(player.z) == pz) {
            PlaceTargetIsAir(grid, player, dir);
            PutBlock(Cell(px, py, pz), selected);
          }
        }
      }
    }

    /** The B button in edit mode: on a hit, drop the light of an emitter and
        clear the hit cell to air. */
    method BreakBlock(dir: Vec3)
      requires Valid()
      modifies grid, table, table.lights
      ensures Valid()
      ensures var c := old(Cast(grid, Eye(player), dir, EditReach));
              if c.Hit? then
                InBounds(c.cell) && At(grid, c.cell) == Air && c.cell !in table.Contents() &&
                (forall q :: InBounds(q) && q != c.cell ==> At(grid, q) == old(At(grid, q))) &&
                table.Contents() == (if old(At(grid, c.cell)) == Emitter then Removed(old(table.Contents()), c.cell)
                                     else old(table.Contents()))
              else
                (forall q :: InBounds(q) ==> At(grid, q) == old(At(grid, q))) &&
                table.Contents() == old(table.Contents())
      ensures BreakOutcome(old(Cast(grid, Eye(player), dir, EditReach)),
                           old(Cells()), Cells(), old(table.Contents()), table.Contents())
    {
      var c := CastRay(grid, Eye(player), dir, EditReach);
      if c.Hit? {
        PutBlock(c.cell, Air);
      }
    }

    /** Walking along the yaw direction and turning, active in both modes. */
    method MoveAndTurn(dt: real, inp: Inputs, cosf: real -> real, sinf: real -> real)
      modifies this
      ensures player == Turned(Walked(old(player), inp, dt, cosf, sinf), inp, dt)
      ensures mode == old(mode) && selected == old(selected)
    {
      if AbsInt(inp.joyY) > DeadZone {
        var move := MoveStep(inp.joyY, dt);
        var newX := player.x + cosf(player.yaw) * move;
        var newY := player.y + sinf(player.yaw) * move;
        if newX >= WallMargin && newX < MapW as real - WallMargin {
          player := player.(x := newX);
        }
        if newY >= WallMargin && newY < MapH as real - WallMargin {
          player := player.(y := newY);
        }
      }
      assert player == Walked(old(player), inp, dt, cosf, sinf);

      if AbsInt(inp.joyX) > DeadZone {
        var rot := TurnStep(inp.joyX, dt);
        player := player.(yaw := player.yaw - rot);
      }
    }

    /** Move/look mode: flying up and down within the limits, and pitching. */
    method FlyAndPitch(dt: real, inp: Inputs)
      modifies this
      ensures player == Flown(old(player), inp, dt)
      ensures mode == old(mode) && selected == old(selected)
    {
      if inp.volUp {
        player := player.(z := player.z + MoveSpeed * dt);
        if player.z >= MapD as real - FlyMargin {
          player := player.(z := MapD as real - FlyMargin);
        }
      }
      if inp.volDown {
        player := player.(z := player.z - MoveSpeed * dt);
        if player.z < FlyMargin {
          player := player.(z := FlyMargin);
        }
      }
      if inp.brackR > DeadZone {
        player := player.(pitch := player.pitch + RotSpeed * dt);
      }
      if inp.brackL > DeadZone {
        player := player.(pitch := player.pitch - RotSpeed * dt);
      }
    }

    /** The place action (when `a`) followed by the break action (when `b`),
        both along `dir`. */
    method PlaceThenBreak(a: bool, b: bool, dir: Vec3)
      requires Valid()
      modifies grid, table, table.lights
      ensures Valid()
      ensures !a && !b ==>
                (forall q :: InBounds(q) ==> At(grid, q) == old(At(grid, q))) &&
                table.Contents() == old(table.Contents())
      ensures EditOutcome(a, b, old(Cast(grid, Eye(player), dir, EditReach)), player, selected,
                          old(Cells()), Cells(), old(table.Contents()), table.Contents())
    {
      ghost var g0, l0 := Cells(), table.Contents();
      ghost var w := Start(Eye(player), dir);
      ghost var c1 := Cast(grid, Eye(player), dir, EditReach);
      ghost var placed := a && Placeable(c1, player);
      ghost var k: nat := 0;
      if placed && b {
        PlaceTargetIsAir(grid, player, dir);
        assert c1.prev !in l0;
        k := WalkHitPath(grid, w, c1.prev);
      }
      if a {
        PlaceBlock(dir);
      }
      if b {
        ghost var g1, l1 := Cells(), table.Contents();
        ghost var c2 := Cast(grid, Eye(player), dir, EditReach);
        if placed {
          forall i | 1 <= i <= k
            ensures InBounds(Steps(w, i).At()) &&
                    (Steps(w, i).At() == c1.prev || At(grid, Steps(w, i).At()) == Air)
          {
          }
          WalkAlongPath(grid, w, k, c1.prev);
        }
        BreakBlock(dir);
        if placed {
          PlaceThenBreakRestores(c1, c2, player, selected, g0, g1, Cells(), l0, l1, table.Contents());
        }
      }
    }

    /** Edit mode: the interaction ray along the view direction, place (A),
        break (B), and the block-type cycle (Y). */
    method EditActions(inp: Inputs, cosf: real -> real, sinf: real -> real)
      requires Valid()
      modifies this, grid, table, table.lights
      ensures Valid()
      ensures player == old(player) && mode == old(mode)
      ensures selected == (if inp.pressY then NextBlockType(old(selected)) else old(selected))
      ensures !inp.pressA && !inp.pressB ==>
                (forall q :: InBounds(q) ==> At(grid, q) == old(At(grid, q))) &&
                table.Contents() == old(table.Contents())
      ensures EditOutcome(inp.pressA, inp.pressB, old(Cast(grid, Eye(player), ViewDir(player, cosf, sinf), EditReach)),
                          player, old(selected), old(Cells()), Cells(), old(table.Contents()), table.Contents())
    {
      var dir := ViewDir(player, cosf, sinf);
      PlaceThenBreak(inp.pressA, inp.pressB, dir);
      if inp.pressY {
        selected := selected + 1;
        if selected > MaxBlockType {
          selected := 1;
        }
      }
    }

    /** The part of `game_input` after walking and turning: flying and pitching
        or the edit actions, depending on the mode, then the pitch clamp. */
    method ModeActions(dt: real, inp: Inputs, cosf: real -> real, sinf: real -> real)
      requires Valid() && dt >= 0.0
      modifies this, grid, table, table.lights
      ensures Valid()
      ensures mode == old(mode)
      ensures var p := if mode == MoveLook then Flown(old(player), inp, dt) else old(player);
              player == p.(pitch := ClampPitch(p.pitch))
      ensures selected == (if mode == Edit && inp.pressY then NextBlockType(old(selected)) else old(selected))
      ensures (mode == MoveLook || (!inp.pressA && !inp.pressB)) ==>
                (forall q :: InBounds(q) ==> At(grid, q) == old(At(grid, q))) &&
                table.Contents() == old(table.Contents())
      ensures mode == Edit ==>
                player == old(player) &&
                EditOutcome(inp.pressA, inp.pressB, old(Cast(grid, Eye(player), ViewDir(player, cosf, sinf), EditReach)),
                            player, old(selected), old(Cells()), Cells(), old(table.Contents()), table.Contents())
    {
      if mode == MoveLook {
        FlyAndPitch(dt, inp);
      } else {
        EditActions(inp, cosf, sinf);
      }

      if player.pitch > MaxPitch {
        player := player.(pitch := MaxPitch);
      }
      if player.pitch < -MaxPitch {
        player := player.(pitch := -MaxPitch);
      }
    }

    /** `game_input`: mode switch, walking and turning, then either flying and
        pitching or the edit actions, and last the pitch clamp. */
    method Input(dtUsec: nat, inp: Inputs, cosf: real -> real, sinf: real -> real)
      requires Valid()
      modifies this, grid, table, table.lights
      ensures Valid()
      ensures mode == (if inp.select then Toggled(old(mode)) else old(mode))
      ensures player == NextPose(old(player), mode, inp, Dt(dtUsec), cosf, sinf)
      ensures selected == (if mode == Edit && inp.pressY then NextBlockType(old(selected)) else old(selected))
      ensures (mode == MoveLook || (!inp.pressA && !inp.pressB)) ==>
                (forall q :: InBounds(q) ==> At(grid, q) == old(At(grid, q))) &&
                table.Contents() == old(table.Contents())
      ensures var p := player;
              mode == Edit ==>
                EditOutcome(inp.pressA, inp.pressB, old(Cast(grid, Eye(p), ViewDir(p, cosf, sinf), EditReach)),
                            p, old(selected), old(Cells()), Cells(), old(table.Contents()), table.Contents())
    {
      var dt := Dt(dtUsec);

      if inp.select {
        mode := if mode == MoveLook then Edit else MoveLook;
      }

      MoveAndTurn(dt, inp, cosf, sinf);
      ModeActions(dt, inp, cosf, sinf);
    }
  }
}
