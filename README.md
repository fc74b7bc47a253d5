# TuxRacerDemo items and enemies, modelled in Dafny

This project models the item and enemy layer of the TuxRacerDemo downhill game, one tick at a time:

- **Items.** Anything placed on the course (trees, flags, herrings, enemies, …):
  - a collision footprint derived from its type;
  - a terrain snap and a lateral clamp with bounce;
  - an open-box hit test, and a swept hit test that samples the player's last movement.
- **Enemies.** An enemy moves by one of three patterns:
  - a patrol between two waypoints;
  - a circle round a centre;
  - following the player and walking back home.

  After the pattern step it is snapped to the terrain, clamped into the course, and given cosmetic bobbing and pulsing. Snowmen also throw snowballs at the player:
  - a cooldown limits how often they throw;
  - the live list is filtered each tick, and each hit knocks the player back;
  - a throw gate checks range, cooldown, airborne state and a limit of 3 live snowballs;
  - the aim leads the player linearly.
- **Snowballs.** A snowball expires after a fixed lifetime. Until then it moves by an Euler step with gravity. It is deactivated on the ground and out of the course, and it hits the player within a proximity radius.
- **Level data.**
  - Type names are looked up in the constant type table; an unknown name is an error.
  - Movement-pattern strings are decoded, with fallbacks.
  - Enemy configuration is defaulted with JavaScript's `||`, so a zero counts as absent.
  - Grid coordinates are mapped to world coordinates, and the built items are grouped by type.
- **Snowball rendering.** The model covers which snowballs are drawn (active ones inside the clipping window) and the sphere mesh's vertex and index buffers.

Numbers are `real`. Vectors are the value type `Vectors.Vec3`. Several things the code calls are parameters:
- length, normalisation, sine and cosine are the `Vectors.MathLib` record of functions;
- the terrain height is `World.Course.findY`;
- the course size and the player are explicit parameters (`World.Course`, `World.Player`), standing in for the game's global context.

Operations that update entities in place are methods on classes:
- `Items.Item`, `Enemies.Enemy` and `Snowballs.Snowball`;
- the player's velocity, which only the knockback writes.

Each such method is proved against a pure step function of the old state: `MovableStep`, `SnowballStep`, `MoveStep`, `Survivors`/`HitCount` and `ThrowOutcome`. Multi-tick properties are lemmas about runs of those functions (`EnemyLaws`, `Snowballs`). The loader's grouping loop and the renderer's nested loops are methods proved against recursive specification functions.

Two behaviours of the code are easy to get wrong, and the model keeps them as written:
- **A snowball that hits the player.** The code removes it from the list without marking it inactive (src/game/items/enemy.ts:238-246).
- **Boundary bounce.** Enemies are pushed back inside the course without any velocity bounce, and a patrol turns round instead (src/game/items/enemy.ts:114-125). Only plain items bounce.

## Model

| member | source | states |
|---|---|---|
| ItemTypes.IndexKeys | src/game/items/item-types.ts:12-133 | the table has exactly ten keys, the ten type names, each listed once in table order |
| ItemTypes.GlIdsInTableOrder | src/game/items/item-types.ts:17-126 | the i-th entry has glId i, so different names have different glIds |
| ItemTypes.GlIdOf | src/game/items/item-types.ts:12-133 | every key's glId is its position in the table |
| ItemTypes.EnemyEntries | src/game/items/item-types.ts:97-132 | every ENEMY_ entry collides, moves, is upright and not collectable; exactly three table names start with "ENEMY_" |
| ItemTypes.OnlyHerringCollectable | src/game/items/item-types.ts:49-60 | HERRING is the only collectable type |
| ItemTypes.NoFootprintNoCollision | src/game/items/item-types.ts:37-96 | entries with collision diameter 0 (exactly FLAG, START, FINISH) do not collide |
| ItemTypes.SnowmanTextureUnique | src/game/items/item-types.ts:109-120 | the snowman texture belongs to ENEMY_SNOWMAN and no other entry, so the texture check selects exactly snowmen |
| Items.Item.constructor | src/game/items/item.ts:18-34 | footprint diameter is diameter × type's collision diameter, radius its half; initial position = position; zero velocity; not collected |
| Items.Item.HasCollision | src/game/items/item.ts:65-73 | strict open box: \|dz\| and \|dx\| below the radius, player below the item's top |
| Items.Item.HasCollisionDuringMovement | src/game/items/item.ts:36-63 | a hit at the endpoint is reported; the result is true iff the endpoint or one of the samples 1..n (n = floor(dist / collision diameter)) is in the footprint |
| Items.Item.NoTunneling | src/game/items/item.ts:45-62 | a straight movement parallel to the x or the z axis, in either direction, that crosses the whole footprint within its width across and below its top, is caught by some sample |
| Items.Item.CornerClipMissed | src/game/items/item.ts:45-62 | a diagonal movement of length 20 past a unit footprint has a point inside it (0.47 of the way), yet the swept test reports no hit: no sample falls in the clipped corner |
| Items.Item.NoFalseHits | src/game/items/item.ts:41-62 | if no point of the movement after its start lies in the footprint, no hit is reported |
| Items.NoTunnelingAlongAxis | src/game/items/item.ts:45-62 | the sampling grid of an axis-parallel movement, in either direction, that spans the footprint along its axis puts a sample inside the footprint |
| Items.AxisHitIndex | src/game/items/item.ts:46-56 | along one axis, a grid of n steps each shorter than the footprint, running from before its near edge to past its far edge, has a point 1..n strictly inside it |
| Items.SamplesMissCorner | src/game/items/item.ts:46-56 | the 20 samples of the corner-clipping movement all lie outside the unit footprint at the origin |
| Items.StepShorterThanDiameter | src/game/items/item.ts:46-52 | a movement of at least one diameter gets n ≥ 1 samples spaced less than a diameter apart, and n + 1 steps make the whole movement |
| Items.SamplesEndAtPlayer | src/game/items/item.ts:52-56 | sample 0 is the last position (never tested) and sample n + 1 the current one |
| Items.SampleNext | src/game/items/item.ts:54-57 | adding the step to a sample gives the next sample |
| Items.SampleOnSegment | src/game/items/item.ts:52-56 | sample i is the point i/(n+1) of the way along the movement |
| Items.HitsLieOnPath | src/game/items/item.ts:52-62 | if no point of the movement after its start is in the footprint, neither the endpoint nor any of the samples 1..n is |
| Items.MovableStep | src/game/items/item.ts:81-103 | y is the terrain height at the moved (x, z); if the course is non-empty, x ends inside it; a left clamp gives velocity.x = \|vx\| and a right clamp gives −\|vx\|; velocity y and z are unchanged; an in-bounds item keeps x and its velocity |
| Items.Item.Update | src/game/items/item.ts:75-104 | a static or collected item is unchanged; otherwise position and velocity become MovableStep of the old ones |
| Snowballs.Snowball.constructor | src/game/items/snowball.ts:7-24 | radius 0.3, lifetime 0, max lifetime 3, active, position = throw origin, velocity = the arced launch velocity |
| Snowballs.SnowballStep | src/game/items/snowball.ts:26-67 | inactive: unchanged; the lifetime grows by the time step; expired: inactive with position and velocity kept; otherwise it moves by the old velocity, velocity.y loses 9.81·dt, and it stays active iff not on the ground and not out of the course; it never becomes active again |
| Snowballs.Snowball.Update | src/game/items/snowball.ts:26-67 | the new state is SnowballStep of the old one |
| Snowballs.Hits | src/game/items/snowball.ts:69-80 | false when inactive; otherwise exactly distance < radius + 0.5 |
| Snowballs.Snowball.CheckPlayerCollision | src/game/items/snowball.ts:69-80 | the hit test of the current state |
| Snowballs.InactiveForever | src/game/items/snowball.ts:27-66 | an inactive snowball stays inactive and unchanged over any run of ticks |
| Snowballs.ActiveFlight | src/game/items/snowball.ts:29-44 | a snowball still active after a run has aged by the total time, is within its lifetime and has lost 9.81 × total time of vertical speed; its horizontal velocity is kept |
| Snowballs.ExpiresAfterLifetime | src/game/items/snowball.ts:29-35 | once the total time exceeds the remaining lifetime, the snowball is inactive |
| Snowballs.ActiveUntilLifetime | src/game/items/snowball.ts:29-66 | a snowball in clear flight stays active while its age stays within its lifetime |
| Enemies.OrNumber | src/game/items/enemy.ts:77-82 | JavaScript `n \|\| d`: a present non-zero value is kept, an absent or zero one gives d |
| Enemies.Resolve | src/game/items/enemy.ts:67-82 | the enemy's settings from a configuration, with the defaults: start = position, end = position + 10 in x, centre = position, radius 5, angular speed 1, detection 15, return speed = half the speed |
| Enemies.Enemy.constructor | src/game/items/enemy.ts:29-83 | the item part as for an item; settings = Resolve; clocks 0; heading for the end; angle 0; not following; no snowballs; cooldown 0 |
| Enemies.BoundaryStep | src/game/items/enemy.ts:104-125 | y snapped to the terrain; if the course is non-empty, x ends inside it; velocity unchanged (no bounce); the heading flips iff the pattern is patrolling and x was out of bounds |
| Enemies.Enemy.KeepOnCourse | src/game/items/enemy.ts:104-125 | the new pose is BoundaryStep of the old one |
| Enemies.Enemy.UpdatePatrolling | src/game/items/enemy.ts:159-176 | the new pose is PatrolStep: flip the heading on arrival (within 0.5), otherwise velocity = speed × direction to the target and position advanced by it |
| Enemies.Enemy.UpdateCircular | src/game/items/enemy.ts:178-193 | the new pose is CircularStep: the angle advanced, the position on the circle at the old height, velocity = displacement / time step |
| Enemies.Enemy.UpdateFollowing | src/game/items/enemy.ts:195-225 | the new pose is FollowStep: chase, return or stop home, then move if the velocity is non-zero |
| Enemies.Enemy.UpdateMovement | src/game/items/enemy.ts:92-125 | the new pose is MoveStep: the pattern's step, then BoundaryStep |
| Enemies.Enemy.UpdateAnimation | src/game/items/enemy.ts:136-157 | the animation clock advances; only height (bobbing around the base height) and diameter (the pulse while chasing) change |
| Enemies.Enemy.Advance | src/game/items/enemy.ts:90-128 | clock + time step, then the move step, then the animation |
| Enemies.Enemy.Update | src/game/items/enemy.ts:85-134 | the collected flag never changes, and a tick writes only the clocks, pattern state, snowballs, cooldown, the body's position, velocity, height and diameter, and the player's velocity. Collected: nothing changes. Otherwise Advance runs; a snowman then runs the throwing tick; other enemies leave snowballs, cooldown and the player's velocity alone; at most 3 snowballs afterwards |
| Enemies.Stepped | src/game/items/enemy.ts:234-236 | every snowball ticked once, same length |
| Enemies.SteppedPointwise | src/game/items/enemy.ts:234-236 | the j-th ticked snowball is SnowballStep of the j-th one |
| Enemies.HitMask | src/game/items/enemy.ts:238 | one hit flag per ticked snowball |
| Enemies.HitMaskPointwise | src/game/items/enemy.ts:238 | the j-th flag says whether the j-th ticked snowball hits the player |
| Enemies.KeepMask | src/game/items/enemy.ts:238-249 | one keep flag per ticked snowball |
| Enemies.KeepMaskPointwise | src/game/items/enemy.ts:238-249 | the j-th flag is set exactly when the j-th ticked snowball neither hits the player nor has died |
| Enemies.Survivors | src/game/items/enemy.ts:234-250 | the filtered list is no longer than the list |
| Enemies.HitCount | src/game/items/enemy.ts:238-247 | the number of hits is at most the number of snowballs |
| Enemies.TickSnoc | src/game/items/enemy.ts:234-250 | one more snowball extends the survivors by itself iff it survives, and the hit count by one iff it hits |
| Enemies.SurvivorsLive | src/game/items/enemy.ts:246-249 | every survivor is active and did not hit the player |
| Enemies.LiveSurvive | src/game/items/enemy.ts:246-249 | every ticked snowball that is active and did not hit is kept |
| Enemies.SurvivorsAndHits | src/game/items/enemy.ts:238-249 | survivors plus hits never outnumber the list: a hit is removed |
| Enemies.TickSnowballs | src/game/items/enemy.ts:234-250 | the kept list is Survivors, in order; player velocity × 0.7 once per hit |
| Enemies.Enemy.ThrowIfReady | src/game/items/enemy.ts:252-279 | a snowball is appended, thrown from 0.8 × height and aimed at the player's position led by distance/15 × velocity, and the cooldown reset to 2, iff distance < 25, cooldown ≤ 0, player grounded and fewer than 3 live; otherwise nothing changes; at most 3 afterwards |
| Enemies.Enemy.UpdateSnowballThrowing | src/game/items/enemy.ts:227-280 | cooldown counted down only while positive, then the filter pass (Survivors, knockback) and the throw gate; at most 3 snowballs |
| EnemyLaws.CircleRadius | src/game/items/enemy.ts:178-186 | the circling enemy sits exactly `radius` from the centre in the ground plane at the advanced angle, given cos² + sin² = 1 |
| EnemyLaws.CircleRadiusAfterTick | src/game/items/enemy.ts:92-125 | over the whole movement tick (circle step, terrain snap, boundary clamp): the angle advances and z is the circle's; if the circle point's x lies within the lateral bounds the enemy ends on the circle, otherwise it is clamped inside the bounds, off the circle point; y is the terrain's at the unclamped point |
| EnemyLaws.CircularVelocityMatchesMove | src/game/items/enemy.ts:185-192 | the derived velocity times the time step carries the old position to the new one |
| EnemyLaws.CircularTickAngle | src/game/items/enemy.ts:179 | one whole movement tick (terrain and clamp included) advances the angle by angular speed × time step |
| EnemyLaws.AngleRunTotal | src/game/items/enemy.ts:179 | advancing the angle step by step equals advancing it by the total time |
| EnemyLaws.CircularRunAngle | src/game/items/enemy.ts:92-125 | over a run, the angle is the step-by-step advance |
| EnemyLaws.CircularAngleAdvances | src/game/items/enemy.ts:179 | over any run, the angle = initial angle + angular speed × elapsed time (no drift) |
| EnemyLaws.FollowMatchesMachine | src/game/items/enemy.ts:195-225 | the follow step runs the Idle/Chasing/Returning machine: isFollowing = not idle; velocity = the new mode's; the position moves iff that velocity is non-zero |
| EnemyLaws.AirborneNeverEngages | src/game/items/enemy.ts:200 | an airborne player never starts a chase |
| EnemyLaws.ArrivalStops | src/game/items/enemy.ts:205-212 | a returning follower within 0.5 of home stops following, with velocity exactly zero and position kept |
| EnemyLaws.RestingWhileAirborne | src/game/items/enemy.ts:195-225 | a resting follower stays put for as long as the player is airborne |
| EnemyLaws.PatrolTurns | src/game/items/enemy.ts:159-166 | the patrol heading flips once for arrival and once for a clamp, so two flips cancel |
| EnemyLaws.NoThrowWhileCooling | src/game/items/enemy.ts:228-231 | while less time than the cooldown has passed, the remaining cooldown is the difference and the gate stays shut |
| EnemyLaws.CooldownExpires | src/game/items/enemy.ts:228-231 | once the cooldown's worth of time has passed, the cooldown is ≤ 0 |
| ItemsLoader.MapToType | src/game/items/items-loader.ts:78-84 | success iff the name is a table key, with that entry; otherwise the error "Unknown item type: " + name |
| ItemsLoader.UnknownEnemyNameFails | src/game/items/items-loader.ts:51-56 | for every name starting with "ENEMY_": the lookup succeeds iff it is one of the three tabled enemies, and any other such name gives the unknown-type error, because the lookup happens before the prefix check |
| ItemsLoader.EnemyLookalikeExists | src/game/items/items-loader.ts:51-56 | such names exist: "ENEMY_DRAGON" starts with "ENEMY_" and is not in the table |
| ItemsLoader.GetMovementPattern | src/game/items/items-loader.ts:121-147 | a non-empty string decodes "circular" and "following" and everything else to patrolling; without one: snowman → circular, yeti → following, anything else → patrolling |
| ItemsLoader.PatternNameRoundTrip | src/game/items/items-loader.ts:122-130 | every pattern written out by its name decodes back to itself |
| ItemsLoader.DefaultPatternsByType | src/game/items/items-loader.ts:137-146 | without a pattern string, penguin → patrolling, snowman → circular, yeti → following |
| ItemsLoader.ComputeItemPosition | src/game/items/items-loader.ts:64-76 | y is the terrain height; field numFieldsX is at x = 0 and field 1 at x = width; field numFieldsY is at z = 0 and field 1 at z = −length |
| ItemsLoader.GridRoundTrip | src/game/items/items-loader.ts:64-73 | on a course of non-zero size the grid coordinates are recovered from the world position |
| ItemsLoader.CreateEnemyConfig | src/game/items/items-loader.ts:86-119 | pattern decoded; speed = dto.speed \|\| 5, never zero; the patrol ends are set iff patrolling and both end coordinates are given, start = position; circular: centre = position, radius \|\| 5, angular speed \|\| 1; following: detection \|\| 15, return speed = half the speed; nothing else set |
| ItemsLoader.MapToItem | src/game/items/items-loader.ts:51-62 | an unknown name is an error; an enemy is built iff the name starts with "ENEMY_"; the item has the table type, the grid position, the entry's height and diameter; a new enemy has no snowballs, the configured pattern and speed, patrol start and centre at its position, patrol end from the entry (patrolling with both end coordinates) or 10 along x, radius and angular speed from the entry when circling and the defaults 5 and 1 otherwise, detection radius from the entry when following and 15 otherwise, return speed half the speed |
| ItemsLoader.OfType | src/game/items/items-loader.ts:43 | exactly the input items of the type |
| ItemsLoader.OfTypeAppend | src/game/items/items-loader.ts:43 | selection commutes with concatenation, so input order is kept |
| ItemsLoader.AllTypesVisited | src/game/items/items-loader.ts:42 | iterating the table's names visits every table record |
| ItemsLoader.GroupItemsByType | src/game/items/items-loader.ts:40-49 | a type is a key iff it is a table type with at least one item, and it maps to exactly that type's items in input order |
| ItemsLoader.GroupsPartition | src/game/items/items-loader.ts:40-49 | every item of a table type lands in its own type's group, and a group holds only input items of its type |
| SnowballRendering.IsInClipDistance | src/game/items/snowball-renderer.ts:135-142 | true iff viewZ − far ≤ z ≤ viewZ + backward |
| SnowballRendering.Drawn | src/game/items/snowball-renderer.ts:107-111 | the drawn snowballs are exactly the active ones inside the clipping window |
| SnowballRendering.WiderWindowDrawsMore | src/game/items/snowball-renderer.ts:135-142 | widening the clipping window never hides a drawn snowball |
| SnowballRendering.Row | src/game/items/snowball-renderer.ts:169-177 | six indices per quad of a row |
| SnowballRendering.Rows | src/game/items/snowball-renderer.ts:168-178 | 6·w·h indices for h rows |
| SnowballRendering.RowAt | src/game/items/snowball-renderer.ts:169-177 | quad x of a row occupies entries 6x..6x+5: (a, b, d) then (b, c, d) |
| SnowballRendering.RowsAt | src/game/items/snowball-renderer.ts:168-178 | quad (y, x) occupies entries 6(wy + x)..6(wy + x) + 5: (a, b, d) then (b, c, d) |
| SnowballRendering.QuadBound | src/game/items/snowball-renderer.ts:170-173 | the corners of a quad in row y are vertices of rows y and y + 1 |
| SnowballRendering.RowBound | src/game/items/snowball-renderer.ts:170-176 | every index of row y is below the first vertex of row y + 2 |
| SnowballRendering.RowsBound | src/game/items/snowball-renderer.ts:168-178 | every index is below (w + 1)(h + 1), the number of vertices |
| SnowballRendering.Ring | src/game/items/snowball-renderer.ts:156-165 | three coordinates per vertex of a ring |
| SnowballRendering.Rings | src/game/items/snowball-renderer.ts:152-166 | 3(w + 1) coordinates per ring |
| SnowballRendering.RingAt | src/game/items/snowball-renderer.ts:156-165 | vertex x' of a ring has its coordinates at 3x' |
| SnowballRendering.RingsAt | src/game/items/snowball-renderer.ts:152-166 | vertex (y, x) is vertex number (w + 1)y + x, with its coordinates at three times that |
| SnowballRendering.CreateSphereGeometry | src/game/items/snowball-renderer.ts:144-181 | positions has length 3(w + 1)(h + 1), ring-major; indices has length 6wh, the quads' triangles in order; every index is below (w + 1)(h + 1) |
| SnowballRendering.SpherePositions | src/game/items/snowball-renderer.ts:152-166 | the vertex loop pushes the coordinates of every vertex, ring by ring |
| SnowballRendering.SphereIndices | src/game/items/snowball-renderer.ts:168-178 | the index loop pushes the two triangles of every quad, row by row, all in range |

## Left out

- Loading the level file (`ItemsLoader.load`: fetch and JSON parsing) is not modelled. The list of entries is the input. The `Items` container built from the groups (items.ts) is not part of this model.
- Floating point is not modelled: numbers are mathematical reals. Length, normalisation, sine, cosine and the terrain height are arbitrary functions passed in. Only three kinds of lemma assume anything about them, each through its `requires`:
  - `EnemyLaws.CircleRadius` and `EnemyLaws.CircleRadiusAfterTick` assume the Pythagorean identity for the new angle's cosine and sine;
  - `Items.Item.NoTunneling` and `Items.NoTunnelingAlongAxis` assume that `length` of the movement equals its signed extent along the axis, i.e. its true length;
  - `Items.Item.CornerClipMissed` assumes `length(12, 0, -16) == 20`.
- Vector aliasing is not modelled: vectors are values. In the code, a loaded enemy's `patrolStart` is the very array the enemy's position starts as, so in-place writes to the position could move it. In the model they never do.
- Enemies are modelled by composition: `Enemies.Enemy` holds its item part in `body` instead of extending the item class.
- The enemy's snowball list holds snowball states (values), not snowball objects:
  - the in-place update of one snowball object is `Snowballs.Snowball.Update`, proved equal to `SnowballStep`;
  - the enemy's filter pass ticks each state with `SnowballStep`;
  - a throw creates the snowball with `new Snowball(…)` and appends its state.

  Identity and aliasing of the snowball objects in the list are not captured.
- Sound playback on a hit is not modelled. Nor are the warning printed for an unknown movement pattern and the GL side of the renderer (shaders, uniforms, vertex arrays, the draw calls and the model-view matrix stack). Of the draw loop only the choice of the drawn snowballs is modelled (`SnowballRendering.Drawn`). The camera depth and the two clipping distances are parameters, because the settings and the GL context are not part of this model.
- The sphere vertex formula is not modelled. `SnowballRendering.CreateSphereGeometry` takes the point of ring y, segment x as a function `vertex`, so only where and how many coordinates are pushed is modelled, not their trigonometric values. The builder's two loop nests are the methods `SpherePositions` and `SphereIndices`.
- Items.Item.HasCollisionDuringMovement: requires a positive collision diameter. With a zero diameter the code divides by zero and, after any movement, would loop without bound. The zero-diameter types (FLAG, START, FINISH) are among those that do not collide (`ItemTypes.NoFootprintNoCollision`); HERRING does not collide either but has a diameter of 1.5.
- Items.Item.NoTunneling: covers only movements parallel to the x or the z axis. A diagonal movement that clips a corner of the footprint can pass between two samples, and `Items.Item.CornerClipMissed` shows one. This is inherent in testing a fixed number of points per diameter travelled, not a slip in the code, so no corrected sampler is given.
- Enemies.Enemy.UpdateCircular: requires a non-zero time step, as do `Enemies.Enemy.Update` and the circular lemmas for circling enemies. The code divides by it.
- ItemsLoader.ComputeItemPosition: requires a grid size other than 1 in both directions, where the code divides by zero. So do `CreateEnemyConfig` and `MapToItem`.
- Items.MovableStep: the bound that x ends inside the course is only stated for `playWidth ≥ 0`, the case where the interval is non-empty. The same holds for `Enemies.BoundaryStep`.
- EnemyLaws.CircleRadius: assumes cos² + sin² = 1 at the new angle, because sine and cosine are arbitrary functions here. It is about the circle step alone. After the boundary clamp of the same tick the enemy stays on the circle only where the circle point lies within the lateral bounds (`EnemyLaws.CircleRadiusAfterTick`).
- Enemies.Enemy.UpdateSnowballThrowing: takes the starting list, cooldown and player velocity as ghost parameters equal to the current ones. This is only so that its contract can name them; the method's behaviour is unchanged.
- ItemsLoader.GroupItemsByType: compares item types by value, where the code compares the table's record objects. For items built from the table the two agree, because all table records are different (`ItemTypes.GlIdsInTableOrder`).
- ItemsLoader.MapToItem: returns `Failure` with the message the code throws.
- ItemsLoader.GroupItemsByType: the result is a Dafny map, which has no order. The code's `Map` also remembers the order in which the types were inserted (table order), and that order is not modelled.
- The enemy's `time` clock is only advanced; nothing else reads it.
