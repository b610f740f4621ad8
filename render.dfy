/** render.c's `game_paint`: one primary ray per pixel, traced by an inline
    copy of the grid traversal capped at 40 steps, then lit by the light table,
    outlined, face-shaded, dithered and clamped into a colour triple. */
module Render {
  import opened Common
  import opened Raycast
  import opened Light

  /** The draw-distance cap of the inline traversal. */
  const MaxSteps: nat := 40

  /** The outline margin on each face. */
  const EdgeMargin: real := 1.0 / 16.0

  /** `(float)SCREEN_W / SCREEN_H`. */
  const Aspect: real := ScreenW as real / ScreenH as real

  // ---------------------------------------------------------------------------
  // Colours (nominal 8-bit channels)

  datatype Rgb = Rgb(r: int, g: int, b: int)

  predicate ValidRgb(c: Rgb) {
    0 <= c.r <= 255 && 0 <= c.g <= 255 && 0 <= c.b <= 255
  }

  const Sky: Rgb := Rgb(10, 10, 20)
  const FloorColour: Rgb := Rgb(50, 50, 50)
  const WallColour: Rgb := Rgb(160, 160, 160)
  const White: Rgb := Rgb(255, 255, 255)
  const Green: Rgb := Rgb(50, 200, 50)
  const Blue: Rgb := Rgb(50, 50, 200)
  const Black: Rgb := Rgb(0, 0, 0)

  // ---------------------------------------------------------------------------
  // The step-capped primary traversal

  /** Where the inline traversal stopped: on a solid cell (`hit`) or not, with
      the final loop state and the axis of the last step. */
  datatype Trace = Trace(hit: bool, w: Walker, side: Axis)

  /** The inline loop of `game_paint` from walker `w` after `steps` iterations:
      it leaves without a hit once 40 steps are done or when a step leaves the
      grid, and with a hit on the first nonzero cell. */
  function Primary(grid: array3<byte>, w: Walker, side: Axis, steps: nat): (t: Trace)
    requires IsMap(grid) && steps <= MaxSteps
    reads grid
    ensures t.hit ==> InBounds(t.w.At()) && At(grid, t.w.At()) > 0
    ensures t.w.stepX == w.stepX && t.w.stepY == w.stepY && t.w.stepZ == w.stepZ
    ensures t.w.deltaX == w.deltaX && t.w.deltaY == w.deltaY && t.w.deltaZ == w.deltaZ
    decreases MaxSteps - steps
  {
    if steps == MaxSteps then Trace(false, w, side)
    else
      var n := Advance(w);
      if !InBounds(n.At()) then Trace(false, n, Choice(w))
      else if At(grid, n.At()) > 0 then Trace(true, n, Choice(w))
      else Primary(grid, n, Choice(w), steps + 1)
  }

  /** Within the step cap the inline traversal and `cast_ray`'s traversal
      agree: a primary hit is the cell and side `cast_ray` reports, and when
      `cast_ray` needs no more iterations than remain, both hit or both miss. */
  lemma {:induction false} PrimaryMatchesWalk(grid: array3<byte>, w: Walker, side: Axis, steps: nat)
    requires IsMap(grid) && w.Valid() && steps <= MaxSteps
    ensures var t := Primary(grid, w, side, steps);
            t.hit ==> Walk(grid, w).Hit? && Walk(grid, w).cell == t.w.At() && Walk(grid, w).side == t.side
    ensures Iterations(grid, w) <= MaxSteps - steps ==>
            (Primary(grid, w, side, steps).hit <==> Walk(grid, w).Hit?)
    decreases MaxSteps - steps
  {
    if steps < MaxSteps {
      var n := Advance(w);
      WalkUnfold(grid, w);
      if InBounds(n.At()) && At(grid, n.At()) == 0 {
        PrimaryMatchesWalk(grid, n, Choice(w), steps + 1);
      }
    }
  }

  /** Every pending side distance is nonnegative. */
  predicate SidesAhead(w: Walker) {
    0.0 <= w.sideX && 0.0 <= w.sideY && 0.0 <= w.sideZ
  }

  /** Distance along the ray to the face the last step crossed: the pending
      side distance of that axis minus one delta. */
  function PerpDist(t: Trace): real {
    match t.side
    case AxisX => t.w.sideX - t.w.deltaX
    case AxisY => t.w.sideY - t.w.deltaY
    case AxisZ => t.w.sideZ - t.w.deltaZ
  }

  /** From a walker whose side distances are all nonnegative, a hit face lies
      at a nonnegative distance, so the hit point is never behind the eye. */
  lemma {:induction false} PrimaryHitInFront(grid: array3<byte>, w: Walker, side: Axis, steps: nat)
    requires IsMap(grid) && steps <= MaxSteps && SidesAhead(w)
    requires 0.0 < w.deltaX && 0.0 < w.deltaY && 0.0 < w.deltaZ
    ensures var t := Primary(grid, w, side, steps); t.hit ==> PerpDist(t) >= 0.0
    decreases MaxSteps - steps
  {
    if steps < MaxSteps {
      var n := Advance(w);
      if InBounds(n.At()) && At(grid, n.At()) == 0 {
        PrimaryHitInFront(grid, n, Choice(w), steps + 1);
      }
    }
  }

  /** A start at nonnegative coordinates has nonnegative side distances. */
  lemma StartSidesAhead(o: Vec3, d: Vec3)
    requires 0.0 <= o.x && 0.0 <= o.y && 0.0 <= o.z
    ensures SidesAhead(Start(o, d))
  {
  }

  /** The inline traversal of `game_paint`, from the eye cell along `dir`. */
  method TracePrimary(grid: array3<byte>, eye: Vec3, dir: Vec3) returns (t: Trace)
    requires IsMap(grid)
    ensures t == Primary(grid, Start(eye, dir), AxisX, 0)
    ensures t.hit ==> InBounds(t.w.At()) && At(grid, t.w.At()) > 0
  {
    var mapX, mapY, mapZ := Trunc(eye.x), Trunc(eye.y), Trunc(eye.z);

    var deltaDistX, stepX, sideDistX := SetUpAxis(eye.x, mapX, dir.x);
    var deltaDistY, stepY, sideDistY := SetUpAxis(eye.y, mapY, dir.y);
    var deltaDistZ, stepZ, sideDistZ := SetUpAxis(eye.z, mapZ, dir.z);

    var hit := false;
    var side := AxisX;  // C starts from -1; the loop always sets it before it is read
    var steps := 0;

    ghost var w0 := Start(eye, dir);
    assert w0 == Walker(mapX, mapY, mapZ, stepX, stepY, stepZ,
                        sideDistX, sideDistY, sideDistZ, deltaDistX, deltaDistY, deltaDistZ);

    while !hit && steps < MaxSteps
      invariant 0 <= steps <= MaxSteps
      invariant !hit ==> Primary(grid, Walker(mapX, mapY, mapZ, stepX, stepY, stepZ,
                                              sideDistX, sideDistY, sideDistZ,
                                              deltaDistX, deltaDistY, deltaDistZ), side, steps)
                         == Primary(grid, w0, AxisX, 0)
      invariant hit ==> Primary(grid, w0, AxisX, 0) ==
                        Trace(true, Walker(mapX, mapY, mapZ, stepX, stepY, stepZ,
                                           sideDistX, sideDistY, sideDistZ,
                                           deltaDistX, deltaDistY, deltaDistZ), side)
      decreases MaxSteps - steps
    {
      ghost var cur := Walker(mapX, mapY, mapZ, stepX, stepY, stepZ,
                              sideDistX, sideDistY, sideDistZ, deltaDistX, deltaDistY, deltaDistZ);
      if sideDistX < sideDistY {
        if sideDistX < sideDistZ {
          sideDistX := sideDistX + deltaDistX;
          mapX := mapX + stepX;
          side := AxisX;
        } else {
          sideDistZ := sideDistZ + deltaDistZ;
          mapZ := mapZ + stepZ;
          side := AxisZ;
        }
      } else {
        if sideDistY < sideDistZ {
          sideDistY := sideDistY + deltaDistY;
          mapY := mapY + stepY;
          side := AxisY;
        } else {
          sideDistZ := sideDistZ + deltaDistZ;
          mapZ := mapZ + stepZ;
          side := AxisZ;
        }
      }
      ghost var next := Walker(mapX, mapY, mapZ, stepX, stepY, stepZ,
                               sideDistX, sideDistY, sideDistZ, deltaDistX, deltaDistY, deltaDistZ);
      assert next == Advance(cur) && side == Choice(cur);

      if mapX < 0 || mapX >= MapW || mapY < 0 || mapY >= MapH || mapZ < 0 || mapZ >= MapD {
        break;
      }

      if grid[mapX, mapY, mapZ] > 0 {
        hit := true;
      }
      steps := steps + 1;
    }

    t := Trace(hit, Walker(mapX, mapY, mapZ, stepX, stepY, stepZ,
                           sideDistX, sideDistY, sideDistZ, deltaDistX, deltaDistY, deltaDistZ), side);
  }

  // ---------------------------------------------------------------------------
  // Camera and screen mapping

  /** The camera basis: forward, right and up vectors. */
  datatype Camera = Camera(f: Vec3, r: Vec3, u: Vec3)

  function Dot(a: Vec3, b: Vec3): real {
    a.x * b.x + a.y * b.y + a.z * b.z
  }

  /** The view direction for yaw and pitch given their cosines and sines; the
      edit-mode interaction ray uses the same vector. */
  function Forward(cy: real, sy: real, cp: real, sp: real): Vec3 {
    Vec3(cy * cp, sy * cp, sp)
  }

  /** The camera basis from the cosines and sines of yaw and pitch: the right
      vector is horizontal, and up is the cross product of right and forward. */
  function Basis(cy: real, sy: real, cp: real, sp: real): (c: Camera)
    ensures c.f == Forward(cy, sy, cp, sp)
    ensures c.r.z == 0.0
    ensures Dot(c.r, c.f) == 0.0
  {
    var f := Forward(cy, sy, cp, sp);
    var r := Vec3(sy, -cy, 0.0);
    var u := Vec3(r.y * f.z - r.z * f.y, r.z * f.x - r.x * f.z, r.x * f.y - r.y * f.x);
    Camera(f, r, u)
  }

  /** The up vector is perpendicular to both the right and the forward vectors. */
  lemma BasisOrthogonal(cy: real, sy: real, cp: real, sp: real)
    ensures var c := Basis(cy, sy, cp, sp); Dot(c.u, c.r) == 0.0 && Dot(c.u, c.f) == 0.0
  {
  }

  /** The camera of a player whose trigonometry is given by `cosf` and `sinf`. */
  function CameraOf(p: Player, cosf: real -> real, sinf: real -> real): Camera {
    Basis(cosf(p.yaw), sinf(p.yaw), cosf(p.pitch), sinf(p.pitch))
  }

  /** Vertical normalised device coordinate of pixel row `y`: row 0 is the top. */
  function NdcY(y: int): (n: real)
    ensures 0 <= y < ScreenH ==> -1.0 < n <= 1.0
    ensures y == 0 ==> n == 1.0
    ensures y == ScreenH / 2 ==> n == 0.0
  {
    1.0 - (2.0 * y as real / ScreenH as real)
  }

  /** Horizontal normalised device coordinate of pixel column `x`. */
  function NdcX(x: int): (n: real)
    ensures 0 <= x < ScreenW ==> -1.0 <= n < 1.0
    ensures x == 0 ==> n == -1.0
    ensures x == ScreenW / 2 ==> n == 0.0
  {
    (2.0 * x as real / ScreenW as real) - 1.0
  }

  /** Lower rows map to smaller vertical coordinates; columns further right to larger horizontal ones. */
  lemma NdcMonotone(a: int, b: int)
    requires a < b
    ensures NdcY(b) < NdcY(a) && NdcX(a) < NdcX(b)
  {
  }

  /** The primary ray direction through pixel (x, y). */
  function RayDir(cam: Camera, x: int, y: int, tanFov: real): Vec3 {
    var camY := NdcY(y) * tanFov;
    var camX := NdcX(x) * tanFov * Aspect;
    Vec3(cam.f.x + cam.r.x * camX + cam.u.x * camY,
         cam.f.y + cam.r.y * camX + cam.u.y * camY,
         cam.f.z + cam.r.z * camX + cam.u.z * camY)
  }

  /** The crosshair pixel's ray is the forward vector itself, so it aims where
      the edit-mode interaction ray goes. */
  lemma CrosshairAimsForward(cam: Camera, tanFov: real)
    ensures RayDir(cam, ScreenW / 2, ScreenH / 2, tanFov) == cam.f
  {
  }

  // ---------------------------------------------------------------------------
  // Shading decisions

  /** The block palette; any code outside 1..5 is drawn in the wall colour. */
  function Palette(block: byte): (c: Rgb)
    ensures ValidRgb(c)
    ensures c == White <==> block == Emitter
    ensures (block == 0 || block > MaxBlockType) ==> c == WallColour
  {
    match block
    case 1 => FloorColour
    case 2 => WallColour
    case 3 => White
    case 4 => Green
    case 5 => Blue
    case _ => WallColour
  }

  /** Emitter blocks are self-illuminated: their intensity is forced to 1. */
  function SurfaceIntensity(block: byte, lightIntensity: real): (li: real)
    ensures block == Emitter ==> li == 1.0
    ensures block != Emitter ==> li == lightIntensity
  {
    if block == Emitter then 1.0 else lightIntensity
  }

  /** The fractional part of a coordinate. */
  function Frac(r: real): (f: real)
    ensures 0.0 <= f < 1.0
    ensures (r - f).Floor as real == r - f
  {
    r - r.Floor as real
  }

  /** The position within the hit face: the fractional parts of the two
      coordinates orthogonal to the crossed axis. */
  function SurfaceUV(side: Axis, p: Vec3): (uv: (real, real))
    ensures 0.0 <= uv.0 < 1.0 && 0.0 <= uv.1 < 1.0
  {
    match side
    case AxisX => (Frac(p.y), Frac(p.z))
    case AxisY => (Frac(p.x), Frac(p.z))
    case AxisZ => (Frac(p.x), Frac(p.y))
  }

  /** A face point within the margin of any of the face's four borders. */
  predicate IsEdge(u: real, v: real) {
    u < EdgeMargin || u > 1.0 - EdgeMargin || v < EdgeMargin || v > 1.0 - EdgeMargin
  }

  /** Directional face shading: darkest on the underside of a ceiling, then X
      faces, then Y faces; floors and other Z faces stay unshaded. */
  function FaceShade(side: Axis, stepZ: int): (s: real)
    ensures 0.5 <= s <= 1.0
    ensures s == 0.5 <==> side == AxisZ && stepZ > 0
    ensures s == 1.0 <==> side == AxisZ && stepZ <= 0
    ensures side == AxisX ==> s == 0.8
    ensures side == AxisY ==> s == 0.7
  {
    if side == AxisZ && stepZ > 0 then 0.5
    else
      match side
      case AxisX => 0.8
      case AxisY => 0.7
      case AxisZ => 1.0
  }

  /** The ordered 2x2 Bayer index of a pixel: [0 2; 3 1] by (x mod 2, y mod 2). */
  function BayerIndex(x: nat, y: nat): (d: int)
    ensures 0 <= d < 4
    ensures d == [0, 2, 3, 1][x % 2 + 2 * (y % 2)]
  {
    if x % 2 == 0 && y % 2 == 0 then 0
    else if x % 2 != 0 && y % 2 == 0 then 2
    else if x % 2 == 0 && y % 2 != 0 then 3
    else 1
  }

  /** Every aligned 2x2 tile holds each Bayer index exactly once. */
  lemma BayerTileIsPermutation(x: nat, y: nat)
    requires x % 2 == 0 && y % 2 == 0
    ensures multiset{BayerIndex(x, y), BayerIndex(x + 1, y), BayerIndex(x, y + 1), BayerIndex(x + 1, y + 1)}
            == multiset{0, 1, 2, 3}
  {
  }

  /** The dither offset `(d - 1.5) * 4`. */
  function DitherOffset(d: int): (o: real)
    ensures 0 <= d < 4 ==> (o == -6.0 || o == -2.0 || o == 2.0 || o == 6.0)
    ensures 0 <= d < 4 ==> -6.0 <= o <= 6.0
  {
    (d as real - 1.5) * 4.0
  }

  /** The offsets of an aligned 2x2 tile cancel out: dithering does not shift
      the average brightness of a tile. */
  lemma DitherTileBalanced(x: nat, y: nat)
    requires x % 2 == 0 && y % 2 == 0
    ensures DitherOffset(BayerIndex(x, y)) + DitherOffset(BayerIndex(x + 1, y)) +
            DitherOffset(BayerIndex(x, y + 1)) + DitherOffset(BayerIndex(x + 1, y + 1)) == 0.0
  {
  }

  /** Zero ambient plus the light intensity, capped at 1. */
  function IntensityFactor(li: real): (f: real)
    ensures f <= 1.0
    ensures li <= 1.0 ==> f == li
    ensures 0.0 <= li ==> 0.0 <= f
  {
    var ambient := 0.0;
    var factor := ambient + li;
    if factor > 1.0 then 1.0 else factor
  }

  /** Clamp to [0, 255], then C's truncating conversion. */
  function Quantise(v: real): (c: int)
    ensures 0 <= c <= 255
    ensures v >= 255.0 ==> c == 255
    ensures v < 1.0 ==> c == 0
    ensures 0.0 <= v <= 255.0 ==> c as real <= v < c as real + 1.0
  {
    var clamped := if v > 255.0 then 255.0 else if v < 0.0 then 0.0 else v;
    Trunc(clamped)
  }

  /** One output channel: base channel times intensity factor times face
      shade, plus the dither offset, quantised. */
  function Channel(base: int, factor: real, shade: real, offset: real): (c: int)
    ensures 0 <= c <= 255
  {
    Quantise(base as real * factor * shade + offset)
  }

  /** The colour of a hit pixel. An outline pixel is black before dithering,
      whatever the lighting, so only the dither offset is left of it. */
  function ShadeHit(block: byte, lightIntensity: real, side: Axis, stepZ: int,
                    u: real, v: real, x: nat, y: nat): (c: Rgb)
    ensures ValidRgb(c)
    ensures IsEdge(u, v) ==> c.r == c.g == c.b == Quantise(DitherOffset(BayerIndex(x, y))) <= 6
  {
    var base := if IsEdge(u, v) then Black else Palette(block);
    var factor := IntensityFactor(SurfaceIntensity(block, lightIntensity));
    var shade := FaceShade(side, stepZ);
    var offset := DitherOffset(BayerIndex(x, y));
    Rgb(Channel(base.r, factor, shade, offset),
        Channel(base.g, factor, shade, offset),
        Channel(base.b, factor, shade, offset))
  }

  /** An emitter face looks the same under any lighting. */
  lemma EmitterIgnoresLights(li1: real, li2: real, side: Axis, stepZ: int, u: real, v: real, x: nat, y: nat)
    ensures ShadeHit(Emitter, li1, side, stepZ, u, v, x, y) == ShadeHit(Emitter, li2, side, stepZ, u, v, x, y)
  {
  }

  /** With no light reaching it, a non-emitter face is as dark as an outline:
      only the dither offset is left. */
  lemma UnlitIsDark(block: byte, side: Axis, stepZ: int, u: real, v: real, x: nat, y: nat)
    requires block != Emitter
    ensures var c := ShadeHit(block, 0.0, side, stepZ, u, v, x, y);
            c.r == c.g == c.b == Quantise(DitherOffset(BayerIndex(x, y)))
  {
  }

  /** The hit point: the eye plus the direction scaled by the perpendicular distance. */
  function HitPoint(eye: Vec3, dir: Vec3, t: Trace): Vec3 {
    var d := PerpDist(t);
    Vec3(eye.x + dir.x * d, eye.y + dir.y * d, eye.z + dir.z * d)
  }

  /** The colour `game_paint` draws for pixel (x, y) before the crosshair:
      sky on a miss, the shaded block on a hit. */
  function PixelColour(grid: array3<byte>, ls: seq<LightSource>, p: Player, cam: Camera,
                       tanFov: real, x: nat, y: nat, sqrtf: real -> real): (c: Rgb)
    requires IsMap(grid)
    reads grid
    ensures ValidRgb(c)
  {
    var dir := RayDir(cam, x, y, tanFov);
    var t := Primary(grid, Start(Eye(p), dir), AxisX, 0);
    if !t.hit then Sky
    else
      var hp := HitPoint(Eye(p), dir, t);
      var uv := SurfaceUV(t.side, hp);
      ShadeHit(At(grid, t.w.At()), Intensity(grid, ls, hp, dir, sqrtf), t.side, t.w.stepZ,
               uv.0, uv.1, x, y)
  }

  /** The final frame: the white crosshair over the centre pixel, every other
      pixel as traced. */
  function ScreenPixel(grid: array3<byte>, ls: seq<LightSource>, p: Player, cam: Camera,
                       tanFov: real, x: nat, y: nat, sqrtf: real -> real): (c: Rgb)
    requires IsMap(grid)
    reads grid
    ensures ValidRgb(c)
    ensures x == ScreenW / 2 && y == ScreenH / 2 ==> c == White
  {
    if x == ScreenW / 2 && y == ScreenH / 2 then White
    else PixelColour(grid, ls, p, cam, tanFov, x, y, sqrtf)
  }

  /** A primary ray that leaves the grid within the step cap shows sky, and a
      hit within the cap lies on the cell `cast_ray` would report. */
  lemma PixelAgreesWithCast(grid: array3<byte>, p: Player, cam: Camera, tanFov: real, x: nat, y: nat)
    requires IsMap(grid)
    ensures var dir := RayDir(cam, x, y, tanFov);
            var t := Primary(grid, Start(Eye(p), dir), AxisX, 0);
            var c := Cast(grid, Eye(p), dir, 1.0);
            (t.hit ==> c.Hit? && c.cell == t.w.At() && c.side == t.side) &&
            (Iterations(grid, Start(Eye(p), dir)) <= MaxSteps ==> (t.hit <==> c.Hit?))
  {
    var dir := RayDir(cam, x, y, tanFov);
    PrimaryMatchesWalk(grid, Start(Eye(p), dir), AxisX, 0);
  }

  /** For an eye at nonnegative coordinates the shaded point is never behind it. */
  lemma PixelHitInFront(grid: array3<byte>, p: Player, cam: Camera, tanFov: real, x: nat, y: nat)
    requires IsMap(grid)
    requires 0.0 <= p.x && 0.0 <= p.y && 0.0 <= p.z
    ensures var t := Primary(grid, Start(Eye(p), RayDir(cam, x, y, tanFov)), AxisX, 0);
            t.hit ==> PerpDist(t) >= 0.0
  {
    var dir := RayDir(cam, x, y, tanFov);
    StartSidesAhead(Eye(p), dir);
    PrimaryHitInFront(grid, Start(Eye(p), dir), AxisX, 0);
  }

  // ---------------------------------------------------------------------------
  // The frame loop

  /** The body of the pixel loop: trace, and on a hit light and shade the face. */
  method ShadePixel(grid: array3<byte>, table: LightTable, p: Player, cam: Camera, tanFov: real,
                    x: nat, y: nat, sqrtf: real -> real) returns (c: Rgb)
    requires IsMap(grid) && table.Valid()
    ensures c == PixelColour(grid, table.Contents(), p, cam, tanFov, x, y, sqrtf)
  {
    var dir := RayDir(cam, x, y, tanFov);
    var t := TracePrimary(grid, Eye(p), dir);
    if t.hit {
      var block := grid[t.w.x, t.w.y, t.w.z];
      var hp := HitPoint(Eye(p), dir, t);
      var lightIntensity := table.LightIntensity(grid, hp, dir, sqrtf);
      var uv := SurfaceUV(t.side, hp);
      c := ShadeHit(block, lightIntensity, t.side, t.w.stepZ, uv.0, uv.1, x, y);
    } else {
      c := Sky;
    }
  }

  /** `game_paint`'s pixel loops: rows top to bottom, columns left to right,
      one traced colour per pixel and the crosshair over the centre. The frame
      buffer is indexed `[x, y]`. */
  method Paint(grid: array3<byte>, table: LightTable, p: Player, cosf: real -> real, sinf: real -> real,
               sqrtf: real -> real, tanFov: real, frame: array2<Rgb>)
    requires IsMap(grid) && table.Valid()
    requires frame.Length0 == ScreenW && frame.Length1 == ScreenH
    modifies frame
    ensures forall x, y :: 0 <= x < ScreenW && 0 <= y < ScreenH ==>
              frame[x, y] == ScreenPixel(grid, table.Contents(), p, CameraOf(p, cosf, sinf), tanFov, x, y, sqrtf)
  {
    var cam := CameraOf(p, cosf, sinf);
    for y := 0 to ScreenH
      invariant forall i, j :: 0 <= i < ScreenW && 0 <= j < y ==>
                  frame[i, j] == ScreenPixel(grid, table.Contents(), p, cam, tanFov, i, j, sqrtf)
    {
      for x := 0 to ScreenW
        invariant forall i, j :: 0 <= i < ScreenW && 0 <= j < y ==>
                    frame[i, j] == ScreenPixel(grid, table.Contents(), p, cam, tanFov, i, j, sqrtf)
        invariant forall i :: 0 <= i < x ==>
                    frame[i, y] == ScreenPixel(grid, table.Contents(), p, cam, tanFov, i, y, sqrtf)
      {
        var c := ShadePixel(grid, table, p, cam, tanFov, x, y, sqrtf);
        frame[x, y] := c;
        if x == ScreenW / 2 && y == ScreenH / 2 {
          frame[x, y] := White;
        }
      }
    }
  }
}
