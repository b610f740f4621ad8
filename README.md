# tester-3d voxel world, modelled in Dafny

This project models the world logic of the `tester-3d` voxel renderer: a
30×30×5 grid of block codes, a bounded table of up to 64 point lights, the grid
traversal `cast_ray`, the per-surface light intensity, the per-pixel shading of
`game_paint`, and the input step `game_input` that moves the player and edits
the world.

Modules, one per file:

- `Common` (`common.dfy`): the shared constants, block codes, cell and vector values, and C's truncating `(int)` conversion.
- `Raycast` (`raycast.dfy`): `cast_ray` of map.c.
  - `Walk` is a recursive specification of the traversal loop; its termination measure counts the cells left ahead on each axis.
  - `CastRay` is the C loop, proved equal to that specification.
- `Light` (`light.dfy`): light.c.
  - `LightTable` is a class over an array of 64 entries plus a live count.
  - `Add` and `Remove` are proved against the sequence functions `Appended` and `Removed`.
  - `LightIntensity` is proved against the value `Intensity`.
- `VoxelMap` (`voxel_map.dfy`): `init_map` of map.c, a triple loop over the grid array.
- `Render` (`render.dfy`): `game_paint` of render.c.
  - The inline traversal is capped at 40 steps (`Primary`, `TracePrimary`).
  - It covers the camera and the screen mapping, and the shading decisions as pure functions.
  - `Paint` fills an `array2` frame, indexed `[x, y]`.
- `Game` (`game.dfy`): main.c.
  - `World` is a class holding the grid, the light table, the player pose, the mode and the selected block type.
  - It models `game_start`, place and break, the block-type cycle, the mode toggle and the pose clamps.

Each map.c function has its own module because map.c and light.c call each
other: `init_map` fills the light table, and `calculate_light_intensity` casts
shadow rays.

Main results:
- The traversal always terminates.
- A hit is in bounds and solid.
- The previous cell is one step back along the reported axis.
- The hit is never behind the start cell on any axis, and is never the start cell itself.
- The previous cell is the start cell or air. As a consequence, a place action only ever writes into an air cell, and the "overwriting a light" branch of main.c:116-118 never fires.
- Place and break keep the light table consistent with the grid: every light sits on an emitter cell, and no cell is listed twice.
- Pressing A and B in the same step, when a block can be placed, changes nothing: the break's ray stops on the block just placed and removes it, together with any light it added.
- Within its step cap, the 40-step primary traversal agrees with `cast_ray`.
- Light intensity stays in [0, 1].
- The player pose stays inside the world.

Behaviour of the code worth knowing, which the model follows:
- **Outline pixels.** The comment at render.c:194-195 says the modulation keeps outlines black. The dither offset added at render.c:232-236 comes after it, so the channel values passed to `rgb_to_rgb565` for an outline pixel are 0, 2 or 6, not 0 (`Render.ShadeHit`). Whether the packed pixel is black depends on the packing, which is not modelled.
- **Face shading.** Every underside (a Z face crossed while stepping up, such as the ceiling's) gets 0.5. Every top face (such as the floor's) keeps 1.0. X and Y faces get 0.8 and 0.7 (`Render.FaceShade`).
- **Ties between side distances.** They resolve toward Z, then Y; X wins only when strictly smallest.
- **The traversal bound.** `dist` is never advanced, so the shadow ray's `max_dist` only decides whether the loop runs. No traversal is bounded by distance.
- **The pitch clamp.** It is a closed interval, [−89°, 89°].

## Model

| member | source | states |
|---|---|---|
| Common.Trunc | src/tester-3d/map.c:39-41 | the `(int)` cast truncates toward zero: result within one below a nonnegative input and one above a negative one |
| Raycast.ChooseAxis | src/tester-3d/map.c:84-104 | X exactly when sideDistX is strictly below both others; else Y exactly when sideDistY < sideDistZ; else Z; the chosen side distance is the minimum |
| Raycast.Advance | src/tester-3d/map.c:84-104 | one loop step moves the cell by the fixed step on the chosen axis only and never changes steps or deltas |
| Raycast.Potential | src/tester-3d/map.c:79-110 | inside the grid the termination measure is at most MAP_W+MAP_H+MAP_D |
| Raycast.AdvanceDecreases | src/tester-3d/map.c:84-110 | a step that stays in the grid strictly lowers the measure, so the loop cannot run forever although `dist` never grows |
| Raycast.Iterations | src/tester-3d/map.c:79-119 | the loop runs at least once and at most the measure, so at most MAP_W+MAP_H+MAP_D times from an in-grid start |
| Raycast.DeltaDist | src/tester-3d/map.c:43-45 | the per-axis delta is always positive: the 1e30 sentinel for a zero component |
| Raycast.Start | src/tester-3d/map.c:39-70 | the start cell is the truncated origin and each step is −1 for a negative component, else +1 |
| Raycast.AxisSetUpBounds | src/tester-3d/map.c:43-70 | per axis the delta is positive, the step is −1 exactly for a negative component and +1 otherwise, and from the origin's own cell the first grid line is between 0 and one delta away |
| Raycast.WalkHitIsSolid | src/tester-3d/map.c:107-136 | a reported hit cell is inside the grid and holds a nonzero code |
| Raycast.WalkHitAdjacent | src/tester-3d/map.c:80-104 | the hit cell is the previous cell moved one step along the reported side's axis |
| Raycast.WalkHitAhead | src/tester-3d/map.c:50-104 | every axis moves monotonically in its step direction, so the hit is ahead of the start and never the start cell |
| Raycast.WalkPrevOpen | src/tester-3d/map.c:77-114 | the reported previous cell is the start cell or an in-grid air cell |
| Raycast.WalkHitPath | src/tester-3d/map.c:79-119 | a hit whose previous cell is not the start cell is reached by a path of at least one step that ends at that previous cell and crosses only in-grid air |
| Raycast.WalkAlongPath | src/tester-3d/map.c:79-119 | along such a path whose cells are air except a solid last cell, the traversal hits exactly that last cell |
| Raycast.CastRay | src/tester-3d/map.c:35-139 | the loop computes `Cast`: no hit for max_dist ≤ 0; a hit is in bounds, solid, adjacent to the previous cell along the side, and ahead of the start |
| Light.Appended | src/tester-3d/light.c:14-19 | add never exceeds 64 entries; with room the length grows by exactly one, the entry sits at the old count and earlier entries are kept; when full the length and entries are unchanged |
| Light.FirstIndex | src/tester-3d/light.c:23-24 | the scan stops at the first matching entry, or at the count when none matches |
| Light.RemovedMultiset | src/tester-3d/light.c:21-29 | remove of a present coordinate drops the count by one and exactly one copy from the multiset; an absent one changes nothing |
| Light.AddThenRemove | src/tester-3d/light.c:14-29 | adding then removing a coordinate, with room, restores the original multiset |
| Light.AppendedThenRemoved | src/tester-3d/light.c:14-29 | adding a coordinate the table lacks and removing it again gives back the same table, order included, full or not |
| Light.RemovedDistinct | src/tester-3d/light.c:21-29 | on a table without repeats, remove leaves no copy of the coordinate and adds nothing |
| Light.AppendedDistinct | src/tester-3d/light.c:14-19 | appending a coordinate not yet present keeps the table free of repeats |
| Light.LightTable.constructor | src/tester-3d/light.c:6-7 | a fresh 64-entry table with count 0 |
| Light.LightTable.Reset | src/tester-3d/light.c:9-12 | `reset_lights` empties the table |
| Light.LightTable.Add | src/tester-3d/light.c:14-19 | `add_light` updates the live entries as `Appended` |
| Light.LightTable.Remove | src/tester-3d/light.c:21-29 | `remove_light`'s scan and swap with the last entry updates the live entries as `Removed` |
| Light.LightTable.LightIntensity | src/tester-3d/light.c:31-86 | the loop computes `Intensity` over the live entries, a value in [0, 1] |
| Light.Falloff | src/tester-3d/light.c:75-81 | the boosted quadratic fall-off is in [0, 1.5] and is 0 at distance 20 or more |
| Light.FalloffMonotone | src/tester-3d/light.c:77-80 | the fall-off never grows with distance |
| Light.Contribution | src/tester-3d/light.c:38-82 | one light adds between 0 and 1.5, and nothing from distance 20 on |
| Light.ShadowRule | src/tester-3d/light.c:56-73 | beyond distance 1 a shadow ray that stops on the light's own cell or on nothing leaves it visible; any other hit blocks it |
| Light.SumContributions | src/tester-3d/light.c:34-83 | the running sum starts at 0 and adds at most 1.5 per light |
| Light.Intensity | src/tester-3d/light.c:84-85 | the result is in [0, 1] and is exactly 0 with no lights |
| Light.FarLightsAreDark | src/tester-3d/light.c:48 | with every light at distance 20 or more the intensity is 0 |
| VoxelMap.InitialCode | src/tester-3d/map.c:11-31 | floor 1, ceiling 2 except the centre emitter 3, perimeter walls 2, interior 0; code 3 only at (15, 15, 4) |
| VoxelMap.EnclosedWalkHits | src/tester-3d/map.c:79-114 | in a room whose outer shell is solid, a traversal from an air cell always hits |
| VoxelMap.InitMap | src/tester-3d/map.c:8-33 | every cell holds `InitialCode`, the table holds exactly the emitter cell, lights match the grid and the shell is solid |
| Render.Primary | src/tester-3d/render.c:88-120 | the capped traversal's hit is an in-bounds nonzero cell; steps and deltas stay fixed |
| Render.PrimaryMatchesWalk | src/tester-3d/render.c:88-120 | a primary hit is `cast_ray`'s cell and side; within the cap both hit or both miss |
| Render.PrimaryHitInFront | src/tester-3d/render.c:127-137 | with nonnegative side distances the perpendicular hit distance is nonnegative |
| Render.StartSidesAhead | src/tester-3d/render.c:51-82 | from an eye at nonnegative coordinates every initial side distance is nonnegative |
| Render.TracePrimary | src/tester-3d/render.c:51-120 | the inline loop with its 40-step cap and break computes `Primary` |
| Render.Basis | src/tester-3d/render.c:17-27 | forward is (cy·cp, sy·cp, sp); right is horizontal and perpendicular to forward |
| Render.BasisOrthogonal | src/tester-3d/render.c:25-27 | the up vector is perpendicular to right and forward |
| Render.NdcY | src/tester-3d/render.c:34 | row coordinates lie in (−1, 1], with row 0 at +1 and the centre row at 0 |
| Render.NdcX | src/tester-3d/render.c:42 | column coordinates lie in [−1, 1), with column 0 at −1 and the centre column at 0 |
| Render.NdcMonotone | src/tester-3d/render.c:34-42 | later rows map lower and later columns map further right |
| Render.CrosshairAimsForward | src/tester-3d/render.c:42-47 | the centre pixel's ray is exactly the forward vector |
| Render.Palette | src/tester-3d/render.c:163-184 | colours are valid; white exactly for code 3; codes outside 1..5 get the wall colour |
| Render.SurfaceIntensity | src/tester-3d/render.c:170-174 | code 3 forces intensity 1; other codes keep the computed one |
| Render.Frac | src/tester-3d/render.c:146-153 | the fractional part is in [0, 1) and differs from its input by an integer |
| Render.SurfaceUV | src/tester-3d/render.c:144-154 | the face coordinates u and v lie in [0, 1) |
| Render.FaceShade | src/tester-3d/render.c:210-213 | the shade is 0.5 exactly for a Z face with upward step, 0.8 for X, 0.7 for Y, 1.0 for the other Z faces |
| Render.BayerIndex | src/tester-3d/render.c:225-229 | the index is in 0..3, and (x mod 2, y mod 2) = (0,0), (1,0), (0,1), (1,1) give 0, 2, 3, 1 |
| Render.BayerTileIsPermutation | src/tester-3d/render.c:220-229 | each aligned 2×2 tile holds indices 0, 2, 3, 1 once each |
| Render.DitherOffset | src/tester-3d/render.c:232 | the offset is one of −6, −2, 2, 6 |
| Render.DitherTileBalanced | src/tester-3d/render.c:225-236 | the four offsets of an aligned tile sum to 0 |
| Render.IntensityFactor | src/tester-3d/render.c:192-197 | the factor is at most 1 and equals the intensity when that is at most 1 |
| Render.Quantise | src/tester-3d/render.c:238-246 | a channel is clamped to [0, 255] and truncated |
| Render.Channel | src/tester-3d/render.c:200-246 | every output channel is in [0, 255] |
| Render.ShadeHit | src/tester-3d/render.c:143-246 | channels are valid; an outline pixel is black before dithering whatever the light, so only the dither offset (≤ 6) remains |
| Render.EmitterIgnoresLights | src/tester-3d/render.c:170-174 | an emitter face looks the same under any light intensity |
| Render.UnlitIsDark | src/tester-3d/render.c:190-197 | with zero intensity and ambient 0, a non-emitter face keeps only the dither offset |
| Render.PixelColour | src/tester-3d/render.c:122-252 | always a valid colour (by definition: sky on a miss, `ShadeHit` on a hit) |
| Render.ScreenPixel | src/tester-3d/render.c:254-257 | the centre pixel is white; every pixel is a valid colour |
| Render.PixelAgreesWithCast | src/tester-3d/render.c:49-120 | a pixel's primary hit is the cell and side `cast_ray` reports along the same ray, and within 40 iterations they agree on hitting |
| Render.PixelHitInFront | src/tester-3d/render.c:127-137 | for an eye at nonnegative coordinates the shaded point is never behind the eye |
| Render.ShadePixel | src/tester-3d/render.c:42-252 | one pixel iteration computes `PixelColour` |
| Render.Paint | src/tester-3d/render.c:6-259 | every frame pixel gets its traced colour, with the crosshair over the centre |
| Game.Toggled | src/tester-3d/main.c:48-50 | select always switches to the other mode |
| Game.NextBlockType | src/tester-3d/main.c:144-148 | the type stays in 1..5, counting up and wrapping from 5 to 1 |
| Game.NextBlockTypeCycles | src/tester-3d/main.c:144-148 | five presses return to the starting type |
| Game.Commit | src/tester-3d/main.c:59-63 | a new x or y is taken exactly when it lies inside [0.1, size − 0.1), otherwise the old one stays, so a position inside stays inside |
| Game.FlyUp | src/tester-3d/main.c:75-79 | flying up moves to z + step below MAP_D − 0.5 and stops at MAP_D − 0.5 otherwise; it never passes that cap and never goes below 0.5 from above it |
| Game.FlyDown | src/tester-3d/main.c:81-85 | flying down moves to z − step from 0.5 up and stops at 0.5 otherwise; it never passes that floor and never goes above MAP_D − 0.5 from below it |
| Game.ClampPitch | src/tester-3d/main.c:151-156 | pitch ends in [−89°, 89°] and is unchanged when already inside |
| Game.NextPose | src/tester-3d/main.c:41-157 | after an input step pitch is within ±89°, and edit mode never changes z |
| Game.NextPoseInWorld | src/tester-3d/main.c:52-156 | an input step keeps x, y, z and pitch inside their bounds |
| Game.Dt | src/tester-3d/main.c:43 | the frame time in seconds is nonnegative |
| Game.PlaceTargetIsAir | src/tester-3d/main.c:105-118 | the cell a place action writes always held air |
| Game.StartRayHits | src/tester-3d/main.c:23-31 | in the freshly built room every edit ray from the starting pose hits a block |
| Game.World.constructor | src/tester-3d/main.c:14-34 | the zeroed globals then `game_start`: valid world, start pose, move/look mode, type 1, initial grid, one light |
| Game.World.GameStart | src/tester-3d/main.c:23-34 | rebuilds the room and its single light, resets pose and mode, keeps the selected type |
| Game.World.PutBlock | src/tester-3d/main.c:115-124 | the written cell holds the code, nothing else changes, and the table is updated as `Relit`, keeping lights consistent with the grid |
| Game.World.PlaceBlock | src/tester-3d/main.c:104-128 | on a hit with an in-grid previous cell other than the player's, that air cell gets the selected type and an emitter gains its light; otherwise nothing changes |
| Game.World.BreakBlock | src/tester-3d/main.c:130-141 | on a hit the cell becomes air, its light (if an emitter) is removed and no light remains for it; no hit changes nothing |
| Game.World.MoveAndTurn | src/tester-3d/main.c:52-70 | walking and turning update the pose as `Walked` then `Turned` |
| Game.World.FlyAndPitch | src/tester-3d/main.c:73-93 | flying and pitching update the pose as `Flown` |
| Game.PlaceThenBreakRestores | src/tester-3d/main.c:104-141 | a place into the air cell before the hit followed by a break that hits the placed block leaves the grid and the light table exactly as they were |
| Game.World.PlaceThenBreak | src/tester-3d/main.c:104-141 | A alone is the place outcome and B alone the break outcome; with both, a placeable target leaves grid and lights unchanged (the break removes the block just placed) and otherwise the break acts along the same ray; with neither nothing changes |
| Game.World.EditActions | src/tester-3d/main.c:94-149 | along the view ray from the pose: A alone places the old selected type into the placeable air cell before the hit, or changes nothing; B alone clears the hit cell and drops its light; A with B changes nothing when the target is placeable and otherwise breaks the hit cell; Y cycles the type; the world stays valid |
| Game.World.ModeActions | src/tester-3d/main.c:73-156 | move/look mode flies, pitches and never edits; edit mode keeps the pose and has the edit outcome; the pitch is clamped last |
| Game.World.Input | src/tester-3d/main.c:41-157 | the mode toggles on select, the pose is `NextPose`, the type cycles only in edit mode on Y, move/look mode never edits, edit mode has the place and break outcome along the ray from the new pose, and the world stays valid |

## Left out

- Display and SDK glue is I/O; its implementations are not part of this model. This covers:
  - `main`, `game_reset` (it only calls `game_start`), `game_audio` and `game_inbox`
  - the backlight call in `game_start`
  - `tft_fill`: every pixel is overwritten by the pixel loop anyway
  - `tft_draw_pixel`, which becomes a write into the frame array
  - the text overlay (render.c:261-271)
- The RGB565 packing is not modelled. `rgb_to_rgb565` and `rgb565_red/green/blue` are library code outside this model, so colours are triples with their nominal 8-bit channels, and the precision the 5/6/5-bit round trip loses is not captured.
- `cosf`, `sinf` and `sqrtf` are function parameters, and `TAN_HALF_FOV` is a real parameter. Their numerical values are not modelled.
- Floating-point arithmetic is modelled as exact real arithmetic. This covers float rounding in side-distance accumulation, attenuation and camera vectors, and constants such as `MAP_W - 0.1f` and the `1e30f` sentinel.
- NULL out-pointers of `cast_ray` are not modelled. The result is a value that carries the hit cell, previous cell and side only on a hit, which matches the C writing its out-pointers only on a hit.
- C's initial `side = -1` becomes an axis value. It is never read before the loop has set it.
- `Light.LightTable.LightIntensity` computes the shadow direction `d / dist` only when `dist > 1`, where the C uses it. The C also computes it for nearer lights and then ignores it, which for a zero distance would divide by zero.
- Raw input polling is abstracted into an `Inputs` value: the press edges, the joystick and trigger readings, and the volume buttons. The joystick readings are plain integers with no range.
- `Game.NextPose` does not bound yaw, because the source does not either.
