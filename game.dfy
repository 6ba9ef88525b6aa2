/** The game lifecycle systems of src/game.rs: tearing a session down when
    the main menu is entered, and building a level when play starts. Both
    only queue commands and overwrite the `MapData` resource; the registry
    lemmas say what the world looks like once the queue is applied. */
module Game {
  import opened Wrappers
  import opened Tiles
  import opened Session

  /** The entities carrying marker `t`, as a query `With<T>` finds them. */
  function Marked(tags: map<Entity, set<Tag>>, t: Tag): set<Entity> {
    set e | e in tags && t in tags[e]
  }

  /** `cmds` despawns exactly the entities of `targets`: every command is a
      despawn of one of them, and each of them has one. */
  ghost predicate DespawnsAll(cmds: seq<Command>, targets: set<Entity>) {
    (forall i :: 0 <= i < |cmds| ==> cmds[i].Despawn? && cmds[i].e in targets) &&
    (forall e :: e in targets ==> Despawn(e) in cmds)
  }

  /** One despawn per entity of `es`, in whatever order the query yields
      them. */
  method DespawnEach(es: set<Entity>) returns (cmds: seq<Command>)
    ensures |cmds| == |es| && DespawnsAll(cmds, es)
  {
    cmds := [];
    var left := es;
    while left != {}
      invariant left <= es
      invariant |cmds| + |left| == |es|
      invariant forall i :: 0 <= i < |cmds| ==> cmds[i].Despawn? && cmds[i].e in es - left
      invariant forall e :: e in es - left ==> Despawn(e) in cmds
      decreases |left|
    {
      var e :| e in left;
      cmds := cmds + [Despawn(e)];
      left := left - {e};
    }
  }

  /** `despawn_game`: resets the map data and queues the removal of every
      level object and of every entity holding player keys. */
  method DespawnGame(w: World) returns (cmds: seq<Command>)
    modifies w
    ensures w.mapData == DefaultMapData
    ensures w.state == old(w.state) && w.next == old(w.next) && w.info == old(w.info) && w.Reg() == old(w.Reg())
    ensures DespawnsAll(cmds, Marked(w.tags, LevelObject) + Marked(w.tags, PlayerKeys))
  {
    w.mapData := DefaultMapData;
    var levelObjects := DespawnEach(Marked(w.tags, LevelObject));
    var players := DespawnEach(Marked(w.tags, PlayerKeys));
    cmds := levelObjects + players;
  }

  /** Once the despawns of `despawn_game` are applied, no level object and no
      player is left, and every other entity is untouched. */
  lemma DespawnGameClears(r: Registry, cmds: seq<Command>)
    requires Valid(r) && DespawnsAll(cmds, Marked(r.tags, LevelObject) + Marked(r.tags, PlayerKeys))
    ensures forall e :: e in Flush(r, cmds).tags <==>
      e in r.tags && LevelObject !in r.tags[e] && PlayerKeys !in r.tags[e]
    ensures forall e :: e in Flush(r, cmds).tags ==>
      Flush(r, cmds).tags[e] == r.tags[e] && ((e in Flush(r, cmds).stats) == (e in r.stats))
  {
    var after := Flush(r, cmds);
    FlushDespawnsOnly(r, cmds);
    forall e | e in r.tags
      ensures e in after.tags <==> LevelObject !in r.tags[e] && PlayerKeys !in r.tags[e]
      ensures e in after.tags ==> (e in after.stats) == (e in r.stats)
    {
      if LevelObject in r.tags[e] || PlayerKeys in r.tags[e] {
        FlushDespawns(r, cmds, e);
      } else {
        FlushKeeps(r, cmds, e);
      }
    }
  }

  /** The largest level whose monster count `level * 5 + 15` still fits the
      unsigned byte the level number is held in. */
  predicate LevelFits(level: int) {
    0 <= level && level * 5 + 15 <= 255
  }

  /** The spawn attempts of a level: the loop runs over `1 .. level * 5 + 15`,
      one attempt fewer than the monster count. */
  function MonsterAttempts(level: int): (n: nat)
    requires LevelFits(level)
    ensures n == level * 5 + 14 && 14 <= n <= 254
  {
    level * 5 + 14
  }

  /** The level's map entity (its mesh is not modelled). */
  const MapEntity := Spawned({LevelObject}, None)

  /** The player entity with its stats. */
  function PlayerEntity(player: CreatureStats): Spawned {
    Spawned({Player, PlayerKeys}, Some(player))
  }

  /** The number of successful attempts. */
  function CountOk(attempts: seq<Result<Spawned, string>>): (n: nat)
    ensures n <= |attempts|
    decreases |attempts|
  {
    if attempts == [] then 0
    else CountOk(attempts[..|attempts| - 1]) + (if attempts[|attempts| - 1].Ok? then 1 else 0)
  }

  /** The spawns of the successful monster attempts, in order; a failed
      attempt is only reported. */
  function MonsterSpawns(attempts: seq<Result<Spawned, string>>): (r: seq<Command>)
    ensures |r| == CountOk(attempts)
    ensures forall i :: 0 <= i < |r| ==> r[i].Spawn? && Ok(r[i].s) in attempts
    ensures forall s :: Ok(s) in attempts ==> Spawn(s) in r
    decreases |attempts|
  {
    if attempts == [] then []
    else
      var n := |attempts| - 1;
      var prior := MonsterSpawns(attempts[..n]);
      assert attempts == attempts[..n] + [attempts[n]];
      match attempts[n]
      case Ok(s) => prior + [Spawn(s)]
      case Err(_) => prior
  }

  /** The spawns keep the order of the attempts: the successful attempt at
      position `i` is the spawn numbered by the successes before it. */
  lemma {:induction false} MonsterSpawnsInOrder(attempts: seq<Result<Spawned, string>>, i: nat)
    requires i < |attempts| && attempts[i].Ok?
    ensures CountOk(attempts[..i]) < |MonsterSpawns(attempts)|
    ensures MonsterSpawns(attempts)[CountOk(attempts[..i])] == Spawn(attempts[i].value)
    decreases |attempts|
  {
    var n := |attempts| - 1;
    var prior := MonsterSpawns(attempts[..n]);
    if i < n {
      assert attempts[..n][..i] == attempts[..i] && attempts[..n][i] == attempts[i];
      MonsterSpawnsInOrder(attempts[..n], i);
      assert MonsterSpawns(attempts)[..|prior|] == prior;
    } else {
      assert MonsterSpawns(attempts) == prior + [Spawn(attempts[i].value)];
    }
  }

  /** Everything `make_level` queues: the map, the player, then one spawn per
      successful monster attempt among the first `level * 5 + 14`. */
  function LevelCommands(level: int, player: CreatureStats, attempts: seq<Result<Spawned, string>>): (r: seq<Command>)
    requires LevelFits(level) && |attempts| >= MonsterAttempts(level)
    ensures |r| == 2 + CountOk(attempts[..MonsterAttempts(level)])
    ensures forall i :: 0 <= i < |r| ==> r[i].Spawn?
    ensures r[0] == Spawn(MapEntity) && r[1] == Spawn(PlayerEntity(player))
  {
    [Spawn(MapEntity), Spawn(PlayerEntity(player))] + MonsterSpawns(attempts[..MonsterAttempts(level)])
  }

  /** `make_level`: installs the generated map and the player's start cell
      and queues the level's spawns. Map generation and the monster spawner
      are outside this model: their results are the parameters. */
  method MakeLevel(w: World, level: int, generated: Map, playerPos: Coords, player: CreatureStats,
                   attempts: seq<Result<Spawned, string>>) returns (cmds: seq<Command>)
    requires LevelFits(level) && |attempts| >= MonsterAttempts(level)
    modifies w
    ensures w.mapData == MapData(Some(generated), Some(playerPos))
    ensures w.state == old(w.state) && w.next == old(w.next) && w.info == old(w.info) && w.Reg() == old(w.Reg())
    ensures cmds == LevelCommands(level, player, attempts)
  {
    w.mapData := w.mapData.(grid := Some(generated));
    cmds := [Spawn(MapEntity)];
    cmds := cmds + [Spawn(PlayerEntity(player))];
    w.mapData := w.mapData.(playerPos := Some(playerPos));
    var monsters := SpawnMonsters(level * 5 + 15, attempts);
    cmds := cmds + monsters;
  }

  /** The monster loop of `make_level`: one attempt per round of
      `1 .. monsterCount`, queuing the successful ones. */
  method SpawnMonsters(monsterCount: nat, attempts: seq<Result<Spawned, string>>) returns (spawns: seq<Command>)
    requires 1 <= monsterCount && |attempts| >= monsterCount - 1
    ensures spawns == MonsterSpawns(attempts[..monsterCount - 1])
  {
    spawns := [];
    var k := 1;
    while k < monsterCount
      invariant 1 <= k <= monsterCount
      invariant spawns == MonsterSpawns(attempts[..k - 1])
    {
      assert attempts[..k][..k - 1] == attempts[..k - 1];
      match attempts[k - 1] {
        case Ok(s) =>
          spawns := spawns + [Spawn(s)];
        case Err(_) =>
      }
      k := k + 1;
    }
  }

  /** `cmds` first despawns exactly the level objects of `tags`, then runs
      `build`. */
  ghost predicate ClearsThenBuilds(cmds: seq<Command>, tags: map<Entity, set<Tag>>, build: seq<Command>) {
    |cmds| >= |build| &&
    DespawnsAll(cmds[..|cmds| - |build|], Marked(tags, LevelObject)) &&
    cmds[|cmds| - |build|..] == build
  }

  /** `start_level`: when the level is already built nothing happens;
      otherwise the old level objects are despawned and a new level is made
      for the current level number. */
  method StartLevel(w: World, generated: Map, playerPos: Coords, player: CreatureStats,
                    attempts: seq<Result<Spawned, string>>) returns (cmds: seq<Command>)
    requires !w.info.levelSpawned ==> LevelFits(w.info.level) && |attempts| >= MonsterAttempts(w.info.level)
    modifies w
    ensures w.state == old(w.state) && w.next == old(w.next) && w.info == old(w.info) && w.Reg() == old(w.Reg())
    ensures old(w.info.levelSpawned) ==> cmds == [] && w.mapData == old(w.mapData)
    ensures !old(w.info.levelSpawned) ==>
      w.mapData == MapData(Some(generated), Some(playerPos)) &&
      ClearsThenBuilds(cmds, w.tags, LevelCommands(w.info.level, player, attempts))
  {
    if w.info.levelSpawned {
      return [];
    }
    var clear := DespawnEach(Marked(w.tags, LevelObject));
    var build := MakeLevel(w, w.info.level, generated, playerPos, player, attempts);
    cmds := clear + build;
    assert cmds[..|cmds| - |build|] == clear;
    assert cmds[|cmds| - |build|..] == build;
  }

  /** Clearing the level objects and then running a queue of spawns: no old
      level object is left, every other entity is untouched, and the i-th
      spawn's entity gets id `nextId + i`. */
  lemma {:induction false} ClearThenSpawn(r: Registry, clear: seq<Command>, build: seq<Command>)
    requires Valid(r) && DespawnsAll(clear, Marked(r.tags, LevelObject))
    requires forall i :: 0 <= i < |build| ==> build[i].Spawn?
    ensures forall e :: e in r.tags && LevelObject in r.tags[e] ==> e !in Flush(r, clear + build).tags
    ensures forall e :: e in r.tags && LevelObject !in r.tags[e] ==>
      e in Flush(r, clear + build).tags && Flush(r, clear + build).tags[e] == r.tags[e]
    ensures Flush(r, clear + build).nextId == r.nextId + |build|
    ensures forall e :: r.nextId <= e < r.nextId + |build| ==>
      e in Flush(r, clear + build).tags && Flush(r, clear + build).tags[e] == build[e - r.nextId].s.tags
    ensures forall e :: r.nextId <= e < r.nextId + |build| && build[e - r.nextId].s.stats.Some? ==>
      e in Flush(r, clear + build).stats && Flush(r, clear + build).stats[e] == build[e - r.nextId].s.stats.value
  {
    FlushAppend(r, clear, build);
    var mid := Flush(r, clear);
    FlushDespawnsOnly(r, clear);
    FlushValid(r, clear);
    FlushSpawnsOnly(mid, build);
    forall e | e in r.tags && LevelObject in r.tags[e]
      ensures e !in Flush(mid, build).tags
    {
      FlushDespawns(r, clear, e);
      if e in Flush(mid, build).tags {
        FlushFresh(mid, build, e);
      }
    }
    forall e | e in r.tags && LevelObject !in r.tags[e]
      ensures e in Flush(mid, build).tags && Flush(mid, build).tags[e] == r.tags[e]
    {
      FlushKeeps(r, clear, e);
      FlushKeeps(mid, build, e);
    }
  }

  /** A new level, once its queue is applied: no old level object is left,
      every other entity is untouched, the map entity and the player get the
      next two ids, and one monster exists per successful attempt. */
  lemma LevelBuilt(r: Registry, cmds: seq<Command>, level: int, player: CreatureStats,
                   attempts: seq<Result<Spawned, string>>)
    requires Valid(r) && LevelFits(level) && |attempts| >= MonsterAttempts(level)
    requires ClearsThenBuilds(cmds, r.tags, LevelCommands(level, player, attempts))
    ensures forall e :: e in r.tags && LevelObject in r.tags[e] ==> e !in Flush(r, cmds).tags
    ensures forall e :: e in r.tags && LevelObject !in r.tags[e] ==>
      e in Flush(r, cmds).tags && Flush(r, cmds).tags[e] == r.tags[e]
    ensures r.nextId in Flush(r, cmds).tags && Flush(r, cmds).tags[r.nextId] == {LevelObject}
    ensures r.nextId + 1 in Flush(r, cmds).tags && Flush(r, cmds).tags[r.nextId + 1] == {Player, PlayerKeys}
    ensures r.nextId + 1 in Flush(r, cmds).stats && Flush(r, cmds).stats[r.nextId + 1] == player
    ensures Flush(r, cmds).nextId == r.nextId + 2 + CountOk(attempts[..MonsterAttempts(level)])
  {
    var build := LevelCommands(level, player, attempts);
    var clear := cmds[..|cmds| - |build|];
    assert cmds == clear + build;
    ClearThenSpawn(r, clear, build);
    assert build[0] == Spawn(MapEntity) && build[1] == Spawn(PlayerEntity(player));
  }

  /** The queue position of a successful monster attempt's spawn. */
  lemma LevelMonsterCommand(level: int, player: CreatureStats, attempts: seq<Result<Spawned, string>>, i: nat)
    requires LevelFits(level) && |attempts| >= MonsterAttempts(level)
    requires i < MonsterAttempts(level) && attempts[i].Ok?
    ensures 2 + CountOk(attempts[..i]) < |LevelCommands(level, player, attempts)|
    ensures LevelCommands(level, player, attempts)[2 + CountOk(attempts[..i])] == Spawn(attempts[i].value)
  {
    var tried := attempts[..MonsterAttempts(level)];
    assert tried[..i] == attempts[..i] && tried[i] == attempts[i];
    MonsterSpawnsInOrder(tried, i);
  }

  /** The monsters of a new level, once its queue is applied: the
      successful attempt at position `i` has become the entity numbered
      after the map, the player and the successes before it, with the
      attempt's markers. */
  lemma LevelMonsters(r: Registry, cmds: seq<Command>, level: int, player: CreatureStats,
                      attempts: seq<Result<Spawned, string>>, i: nat)
    requires Valid(r) && LevelFits(level) && |attempts| >= MonsterAttempts(level)
    requires ClearsThenBuilds(cmds, r.tags, LevelCommands(level, player, attempts))
    requires i < MonsterAttempts(level) && attempts[i].Ok?
    ensures r.nextId + 2 + CountOk(attempts[..i]) in Flush(r, cmds).tags
    ensures Flush(r, cmds).tags[r.nextId + 2 + CountOk(attempts[..i])] == attempts[i].value.tags
  {
    var build := LevelCommands(level, player, attempts);
    var clear := cmds[..|cmds| - |build|];
    assert cmds == clear + build;
    var k := 2 + CountOk(attempts[..i]);
    LevelMonsterCommand(level, player, attempts, i);
    ClearThenSpawn(r, clear, build);
    var id := r.nextId + k;
    assert r.nextId <= id < r.nextId + |build| && id - r.nextId == k;
  }
}
