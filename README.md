# rust_labyrinth game rules in Dafny

A verified model of the rule core of a small first-person labyrinth shooter:
the tile grid and its hand-made test map, the extraction of a wall mesh from
the grid, pickups, weapons and projectile hits, and the level lifecycle
(tearing a session down, building a level). Engine services (rendering, audio,
physics, the entity query machinery) are outside the model; what the rules
take from them becomes a parameter.

Modules, one per source file plus two shared ones:

- `Wrappers` — `Option` and `Result`.
- `Tiles` (src/map.rs, grid part) — `Tile` with its solidity, void test and
  atlas cell; `Map`, a class over a two-dimensional array, with `IsSolid`
  (everything outside the grid is solid) and `SetTile`; `AddRoom`, which
  floors a rectangle and then walls the void cells of its one-cell border; and
  `MakeMap`, which carves the nine rooms and corridors of the 32×32 test map.
  Each cell of the result is described by the pure fold `CarveAll`, and the
  lemmas prove carving idempotent and the finished map sealed: every open cell
  is interior and surrounded by non-void cells.
- `Mesh` (src/map.rs, mesh part) — `MeshBuilder` as a class holding the four
  buffers, with `AddVertex` and `AddRect`. `MapToMesh` walks the grid row by
  row with one step per cell and per side. It is proved to build exactly
  `MeshOf(GridFaces(m, ...))`: one quad per visible wall side, in scan order.
  The lemmas characterise that face list exactly (a face exists iff a wall
  cell borders an open cell on that side), prove it ordered, count the
  buffers, and show every index names an existing vertex. They also show that
  every normal points from the open neighbour into the wall.
- `Session` (src/game.rs state and the shared resources) — `GameState`,
  `GameInfo`, creature stats, and an explicit entity registry. Systems never
  change the registry directly: they return the commands they queue, and
  `World.Apply` / `Flush` run those commands afterwards, as the engine's
  deferred `Commands` do. The flush lemmas say which entities survive, which
  appear and which ids they get.
- `Pickups` (src/pickup.rs) — the gain table, `can_take`, `take`, the sounds,
  the bounded spawn-position search and `check_pickups`. Each pass is a
  method over the world that is proved equal to a pure fold (`PickupPass`),
  and the fold's properties are proved as lemmas.
- `Weapons` (src/weapon.rs) — damage, a one-shot cooldown timer in integer
  ticks, the `Weapon` class (`new`, `set_fire_state`, `make_projectile`),
  `fire_weapons` and the projectile/creature collision pass. The collision
  pass is modelled the same way as the pickup pass.
- `Game` (src/game.rs systems) — `despawn_game`, `start_level` and
  `make_level`. Their queues are proved to clear exactly the right entities
  and to spawn the map, the player and one monster per successful attempt.

Distances, the random number generator and the level-completion predicate
are parameters:

- `near` decides whether two entities are in range;
- `draws` is the sequence of raw random numbers;
- `goNext` is the completion test on `GameInfo`.

The collision pass (src/weapon.rs:125-160) never checks whether a projectile
or a creature is still alive, and its despawns are deferred until the pass
ends. So one projectile hurts every enemy creature in range in the same
pass, and a creature already at zero hp or below can be hit, despawned and
scored again by another projectile in that pass. The model does the same;
`Weapons.SpreadShotExample` and `Weapons.DeadTargetScoredAgainExample` show
both on concrete states.

## Model

| member | source | states |
|---|---|---|
| Tiles.Tile.IsSolid | src/map.rs:53-59 | only the two floor tiles are walkable; walls and void are solid |
| Tiles.Tile.IsVoid | src/map.rs:61-73 | the void tile is exactly the one drawn from the third atlas row, and it is solid |
| Tiles.Tile.TexId | src/map.rs:63-73 | every tile's atlas cell lies in the 4×4 atlas; walls use the first atlas row and floors the second |
| Tiles.TexIdInjective | src/map.rs:63-73 | different tiles never share an atlas cell |
| Tiles.Map.constructor | src/map.rs:76-85 | a new grid of the given size holds the default void tile everywhere |
| Tiles.Map.IsSolid | src/map.rs:13-19 | a cell outside the grid counts as solid; inside, solidity is that of its tile |
| Tiles.Map.TileAt | src/map.rs:21-23 | the tile read at an in-grid cell has the solidity the bounds-safe query reports for that cell |
| Tiles.Map.SetTile | src/map.rs:25-27 | writes the one cell and leaves every other cell unchanged |
| Tiles.Floored | src/map.rs:106-110 | the floor pass changes only cells of the rectangle, and each of them takes the floor kind |
| Tiles.Carved | src/map.rs:105-119 | what carving a room leaves in one cell: the floor inside the rectangle, the wall in a void cell of the border ring, and every other cell unchanged |
| Tiles.CarveIdempotent | src/map.rs:105-119 | carving the same room twice gives the same tile as carving it once |
| Tiles.AddRoom | src/map.rs:105-119 | after `add_room` every cell of the grid is the one-room carving of its old tile |
| Tiles.MapRooms | src/map.rs:87-100 | the test map is carved from nine rooms and corridors |
| Tiles.CarveNext | src/map.rs:87-100 | carving the next room extends the fold over the rooms carved so far |
| Tiles.MakeMap | src/map.rs:82-103 | the test map is a fresh 32×32 grid whose every cell is the fold of all nine carvings over void |
| Tiles.CarveAllKeepsNonVoid | src/map.rs:105-119 | once a cell is no longer void, later carvings never make it void again |
| Tiles.CarveAllSealed | src/map.rs:105-119 | after carving rooms whose floor and wall kinds are not void, every open cell has non-void cells on its four sides |
| Tiles.CarveAllOpenInRoom | src/map.rs:105-119 | every open cell after carving lies inside some room's floor rectangle |
| Tiles.MakeMapSealed | src/map.rs:82-103 | every open cell of the test map is an interior cell with non-void cells on its four sides |
| Mesh.MeshBuilder.constructor | src/map.rs:123-129 | a new builder has four empty buffers |
| Mesh.MeshBuilder.AddVertex | src/map.rs:142-148 | appends one vertex to the three attribute buffers and returns the index it got |
| Mesh.MeshBuilder.AddRect | src/map.rs:150-163 | appends the quad's four vertices and its two triangles, with indices offset by the vertices already present, and keeps well-formed buffers well formed |
| Mesh.Quad | src/map.rs:150-163 | a quad is four vertices sharing the cross product of its edges as normal, at the corner, the corner plus each edge, and the corner plus both edges, with texture coordinates at the four corners of the tile's atlas cell in the same order, and six indices that use each of its four vertices and no other |
| Mesh.QuadShape | src/map.rs:150-163 | one quad adds four vertices and six indices, all naming its own vertices |
| Mesh.NormalIntoWall | src/map.rs:150-186 | the cross product of a face's two edges is the unit vector pointing from the open neighbour into the wall cell, on all four sides |
| Mesh.MeshOfShape | src/map.rs:166-193 | the mesh of n faces has 4n vertices and 6n indices, equal-length attribute buffers, and only in-range indices |
| Mesh.CellFacesExact | src/map.rs:171-187 | a cell yields a face on a side exactly when it is a wall and the cell across that side is open |
| Mesh.RowFacesExact | src/map.rs:170-188 | a face belongs to a row's first n cells exactly when its cell is among them and shows that side |
| Mesh.GridFacesExact | src/map.rs:169-189 | a face belongs to the first n rows exactly when its cell is among them and shows that side |
| Mesh.CellFacesAscending | src/map.rs:175-186 | a cell's faces come in the order north, east, south, west |
| Mesh.RowFacesAscending | src/map.rs:170-188 | a row's faces are ordered by column, then by side |
| Mesh.GridFacesAscending | src/map.rs:169-189 | all faces are in scan order: by row, then column, then side |
| Mesh.NoWallsNoFaces | src/map.rs:172 | a grid with no wall tiles yields no faces, hence an empty mesh |
| Mesh.IsolatedWallFourFaces | src/map.rs:172-186 | a wall surrounded by open cells shows all four of its sides |
| Mesh.EmitSide | src/map.rs:175-186 | one side test adds that side's quad exactly when the side is visible |
| Mesh.EmitCell | src/map.rs:171-187 | one cell adds the quads of its visible sides in order |
| Mesh.EmitRow | src/map.rs:170-188 | one row adds the quads of its cells in order |
| Mesh.EmitGridRow | src/map.rs:169-189 | each round of the outer loop extends the mesh from the first y rows to the first y+1 rows |
| Mesh.MapToMesh | src/map.rs:166-193 | `map_to_mesh` builds exactly one quad per visible wall side of the grid, in scan order |
| Session.World.constructor | src/game.rs:5-26 | a session starts in the main menu with no state change pending, default resources and no entities |
| Session.World.Apply | src/game.rs:50-55 | applying the queued commands runs them in order and touches nothing but the entities |
| Session.FlushValid | src/game.rs:50-55 | applying commands keeps stats attached only to live entities and never reuses an id |
| Session.FlushDespawns | src/game.rs:50-55 | an existing entity with a queued despawn is gone after the flush |
| Session.FlushKeeps | src/game.rs:50-55 | an entity with no queued despawn keeps its markers and stats |
| Session.FlushFresh | src/game.rs:94-116 | every entity that appears in a flush has an id not handed out before |
| Session.FlushAppend | src/game.rs:71-77 | flushing two queues one after the other is flushing them joined |
| Session.FlushDespawnsOnly | src/game.rs:50-55 | a queue of despawns only removes entities and hands out no id |
| Session.FlushSpawnsOnly | src/game.rs:94-116 | a queue of spawns gives the i-th spawned entity the i-th next id, with that spawn's markers and stats |
| Pickups.ToStatGain | src/pickup.rs:27-39 | each pickup gives exactly one kind of gain: positive health, the level trigger, positive coins, or a single key bit in the low nibble |
| Pickups.KeyMasksDisjoint | src/pickup.rs:34-37 | different keys set different bits |
| Pickups.CanTake | src/pickup.rs:41-46 | a pickup is refused exactly when it is a health item and the taker is at or above full health |
| Pickups.Taken | src/pickup.rs:48-63 | health rises, capped at the maximum; coins grow by the gain; the key flags become the old flags or-ed with the key's bit; the level trigger requests the next level; nothing else changes |
| Pickups.TakeKeyTwice | src/pickup.rs:59-61 | taking the same key twice is the same as taking it once |
| Pickups.Take | src/pickup.rs:48-63 | `take` changes the taker's stats, the game info and the next state exactly as `Taken` describes |
| Pickups.ToSound | src/pickup.rs:65-72 | every pickup but the level trigger has a sound |
| Pickups.Candidate | src/pickup.rs:122-123 | every sampled position lies strictly inside the grid border |
| Pickups.ChooseSpawnPos | src/pickup.rs:118-136 | the search returns the first open candidate among 4096 tries; it fails exactly when all 4096 candidates are solid, and then it has used all its draws |
| Pickups.PickupPair | src/pickup.rs:149-162 | a (player, pickup) pair either changes nothing or applies `take` and queues the pickup's despawn, the latter exactly when the pickup is in range and can be taken |
| Pickups.PickupsFor | src/pickup.rs:148-163 | the inner loop equals one player's pass over every pickup |
| Pickups.CheckPickups | src/pickup.rs:138-165 | `check_pickups` equals the pure pass of every player over every pickup |
| Pickups.PickupPassGrows | src/pickup.rs:138-165 | a pickup pass only adds key bits, never lowers coins, leaves score and level alone, never lowers hp or changes a maximum, keeps every hp at or below its maximum, and only appends commands |
| Pickups.PickupPassDespawnsInRange | src/pickup.rs:150-161 | every command a pickup pass queues is the despawn of a pickup in range of some player |
| Pickups.PickupPassTakes | src/pickup.rs:150-161 | every non-health pickup in range of a player gets its despawn queued |
| Pickups.PickupPassKey | src/pickup.rs:150-161 | a key in range of a player is held after the pass: its bit is set in the key flags |
| Pickups.PickupPassCoins | src/pickup.rs:150-161 | a coin pickup in range of a player raises the coins by at least its value |
| Pickups.PickupPassHealth | src/pickup.rs:150-161 | a health pickup in range of a player is despawned, unless that player is at full health at the end of the pass |
| Pickups.PickupPassOutOfRange | src/pickup.rs:150-152 | when no pickup is in range of any player, the pass changes nothing and queues nothing |
| Weapons.Damage | src/weapon.rs:13-19 | every projectile type does between 2 and 4 damage |
| Weapons.Reset | src/weapon.rs:99 | a restarted timer keeps its duration and pause state, has no elapsed time, and finishes on the first tick covering its whole duration unless paused |
| Weapons.Tick | src/weapon.rs:93 | a running one-shot timer finishes exactly when its elapsed time reaches its duration; finished or paused timers do not change |
| Weapons.TicksBelowDuration | src/weapon.rs:93 | a running timer does not finish before its duration has elapsed |
| Weapons.Weapon.constructor | src/weapon.rs:61-67 | a new weapon holds fire and has a fresh cooldown of the given length |
| Weapons.Weapon.SetFireState | src/weapon.rs:53-59 | stores the mode and resumes a paused cooldown unless the new mode is hold-fire |
| Weapons.Weapon.MakeProjectile | src/weapon.rs:69-74 | the projectile belongs to the wielder's team and carries its type's positive damage |
| Weapons.FireStep | src/weapon.rs:93-111 | a weapon fires exactly when its ticked cooldown has finished and it is not holding fire; a shot restarts the cooldown; an idle weapon with a finished cooldown stays as it is |
| Weapons.Weapon.Fire | src/weapon.rs:92-112 | one weapon's turn updates its cooldown and yields its shot as `FireStep` describes |
| Weapons.IdleWeaponFiresAtOnce | src/weapon.rs:53-99 | a weapon that waited with a finished cooldown fires on the first tick after being told to fire |
| Weapons.NoShotWithinCooldown | src/weapon.rs:93-99 | after a shot, the weapon cannot fire again until the cooldown's full duration has elapsed |
| Weapons.Volley | src/weapon.rs:92-113 | a firing pass spawns at most one projectile per weapon, each with positive damage and a wielder's team |
| Weapons.VolleyCount | src/weapon.rs:92-113 | a firing pass spawns exactly as many projectiles as there are weapons whose `FireStep` shoots |
| Weapons.VolleyHasShot | src/weapon.rs:92-113 | every weapon that fires has its shot in the volley, after the shots of the weapons before it in query order |
| Weapons.VolleyShotFrom | src/weapon.rs:92-113 | every projectile of the volley is the shot of a weapon that fires, at the position given by the shots of the weapons before it |
| Weapons.FireWeapons | src/weapon.rs:83-114 | `fire_weapons` spawns exactly the volley of the weapons' previous state and advances each weapon's cooldown as `FireStep` says |
| Weapons.Hit | src/weapon.rs:127-159 | one pair changes only the target's hp, never its team or maximum, and no other creature |
| Weapons.HitConnects | src/weapon.rs:135-159 | a pair of different teams in range costs the target exactly the damage and queues the projectile's despawn; at zero hp either a player's death ends the game, or the monster is despawned for ten points, never both |
| Weapons.CollisionPassGrows | src/weapon.rs:116-162 | the collision pass keeps every creature and its team, raises the score only in steps of ten, leaves the other game info alone, and only appends commands |
| Weapons.CollisionPassSparesTeam | src/weapon.rs:127-129 | a creature sharing the team of every projectile is untouched: there is no friendly fire |
| Weapons.CollisionPassKeepsTeam | src/weapon.rs:116-162 | the collision pass never changes a creature's team |
| Weapons.CollisionPassDespawnsShot | src/weapon.rs:127-159 | every projectile in range of an enemy creature gets its despawn queued |
| Weapons.CollisionPassExplained | src/weapon.rs:116-162 | conversely, every command the pass queues despawns either a projectile that met a creature of another team in range, or a creature that is not a player and ends the pass at zero hp or below |
| Weapons.CollisionPassHp | src/weapon.rs:125-136 | each queried creature ends the pass with its hp lowered by exactly the summed damage of the projectiles of other teams in its range; any other creature keeps its hp |
| Weapons.CollisionPassOutOfRange | src/weapon.rs:125-133 | when no projectile is in range of a creature of another team, the pass changes nothing and queues nothing |
| Weapons.FireOne | src/weapon.rs:93-111 | one weapon's turn extends the volley by that weapon's shot and advances its cooldown as `FireStep` says |
| Weapons.HitOne | src/weapon.rs:127-159 | the body of the collision loop changes the world as `Hit` describes |
| Weapons.HitTargets | src/weapon.rs:126-160 | the inner loop equals one projectile's pass over every target |
| Weapons.CheckCollisions | src/weapon.rs:116-162 | `check_projectile_creature_collisions` equals the pure pass of every projectile over every target |
| Weapons.TwoShots | src/weapon.rs:125-161 | two projectiles are resolved one after the other, each seeing the other's hp changes |
| Weapons.SpreadShotExample | src/weapon.rs:125-161 | one projectile in range of two monsters damages both and has its despawn queued twice |
| Weapons.DeadTargetScoredAgainExample | src/weapon.rs:125-161 | a monster killed by one projectile is hit, despawned and scored again by a second one in the same pass |
| Game.DespawnEach | src/game.rs:50-55 | one despawn per queried entity, covering all of them and nothing else |
| Game.DespawnGame | src/game.rs:42-56 | resets the map data and queues the despawn of exactly the level objects and the player entities |
| Game.DespawnGameClears | src/game.rs:42-56 | after the flush, exactly the entities that are neither level objects nor players survive, unchanged |
| Game.MonsterAttempts | src/game.rs:108-109 | a level makes `level * 5 + 14` monster attempts, one fewer than its monster count |
| Game.MonsterSpawns | src/game.rs:109-116 | one spawn per successful attempt, each of a successful attempt's monster; a failed attempt spawns nothing |
| Game.MonsterSpawnsInOrder | src/game.rs:109-116 | the spawns keep the order of the attempts: the successful attempt at position i is the spawn numbered by the successes before it |
| Game.LevelCommands | src/game.rs:94-116 | a level queues only spawns: the map first, the player second, then one per successful monster attempt |
| Game.SpawnMonsters | src/game.rs:108-116 | the monster loop queues exactly the spawns of the successful attempts among the first `monster_count - 1` |
| Game.MakeLevel | src/game.rs:81-117 | installs the generated map and start cell, then queues the map, the player and the monsters |
| Game.StartLevel | src/game.rs:59-78 | an already built level is left alone; otherwise the old level objects' despawns are queued before the new level's spawns |
| Game.ClearThenSpawn | src/game.rs:71-77 | clearing the level objects, then spawning, removes every old level object, keeps every other entity, and numbers the spawns consecutively |
| Game.LevelBuilt | src/game.rs:59-117 | after a level start is flushed, no old level object remains, every other entity is untouched, the map and player get the next two ids, and exactly one id per successful monster attempt is handed out |
| Game.LevelMonsters | src/game.rs:108-116 | after a level start is flushed, each successful monster attempt has become the entity numbered after the map, the player and the earlier successes, with that attempt's markers |

## Left out

- Integer widths: hp and damage are `i16`, coins and score are `i32`, and
  mesh indices are `u32`. The model uses unbounded integers and does not
  model overflow there.
- Game.MonsterAttempts: `level * 5 + 15` is computed in `u8`, which overflows
  for levels above 48. `LevelFits` requires the levels where it does not, so
  the wrapped loop bounds of higher levels are not modelled.
- Floating point is left out: positions, velocities, distances, the hit
  radius, `hp_perc`, texture coordinates and timer seconds. Distances become
  the `near` parameter. Texture coordinates are counted in quarter-atlas
  units and the timer in integer ticks.
- Weapons.Tick: follows the one-shot timer only; repeating timers and the
  engine's handling of elapsed time past the duration are not modelled.
- The fire direction, projectile speed and sprite, `FaceCamera` and the
  physics body of a new projectile are not modelled. Only the projectile
  component (team, damage) is.
- Audio, sprites and `MeshBuilder::to_mesh` are not modelled. The engine's
  mesh asset is left out; the model returns the four buffers.
- The random number generator is a sequence of raw draws. The mapping
  `Candidate` applies (`1 + draw % (size - 2)`) stands for `fastrand`'s
  range sampling, whose exact distribution is not modelled.
- Procedural generation, `ai::spawn_monster`, the monster style table and
  `modelgen::map_to_mesh` are not part of this model. Their results are
  parameters of `MakeLevel`: the generated map, the start cell and one
  spawn result per attempt.
- The player bundle is modelled as an entity with the `Player` and
  `PlayerKeys` markers and the given stats. Its other components are not
  modelled.
- `MapData` keeps the player's start as a grid cell rather than the
  `Vec3` the source stores.
- Tiles.Map: the source bounds `x` by the grid's column count and `y` by its
  row count, but indexes the grid crate's row-major `tiles[row][col]` with
  `x` first (src/map.rs:14-15, 22, 26, 169-171). The two agree only on square
  grids, such as the 32×32 grid of `make_map`. On a non-square grid the
  source panics or reads transposed cells, while `Map.IsSolid` and
  `MapToMesh` use `tiles[x, y]` with `x` bounded by the first dimension and
  return a value. The grid crate's `x_max`/`z_max` in the spawn search are
  likewise taken as the array's two lengths.
- Weapons.CollisionPassHp: requires each creature to appear once in the
  target list, as a query yields each entity once.
- Weapons.CollisionPassExplained: requires non-negative projectile damage,
  which every projectile made by `MakeProjectile` has; with negative damage a
  killed creature's hp could rise again later in the pass.
- Pickups.ChooseSpawnPos: the source samples `1 .. x_max - 1` and
  `1 .. z_max - 1` (src/pickup.rs:122-123); on a grid narrower than 3 cells in
  either direction that range is empty and the generator panics. The model has
  no panic and requires both grid dimensions to be at least 3, as `Candidate`
  does; the search on smaller grids is not modelled.
- Query iteration order is not modelled for `despawn_game`: its queries are
  sets, so the order of the despawns is left open. The pickup and collision
  passes take their query results as sequences, in a given order.
- The printing of the seed and of failed monster spawns is not modelled.
- Only the `GameInfo` fields the modelled systems read or write are kept;
  `hp_perc` is floating point and is left out.
- `temp_go_next_level` is the `goNext` parameter; its definition is not
  part of this model.
- Aliasing between weapons is not modelled: `FireWeapons` requires the
  query's weapons to be distinct objects, as the engine's query guarantees.
