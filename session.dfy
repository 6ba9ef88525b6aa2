/** The state the game rules share: the session state machine
    (`GameState`, src/game.rs), the `GameInfo` resource, the creature stats
    component, and an explicit entity registry standing for the engine's
    world. Systems never remove entities themselves; they queue commands,
    and the registry applies them afterwards (`Flush`). */
module Session {
  import opened Wrappers
  import opened Tiles

  type Entity = nat

  datatype Team = Players | Monsters

  /** The top-level session state. */
  datatype GameState = MainMenu | InGame | GameOver | Paused | NextLevel

  datatype CreatureStats = CreatureStats(team: Team, hp: int, hpMax: int)

  /** The `GameInfo` resource, with the fields the game rules read and
      write: score, coins, the key bitmask, the level number and whether the
      level has been built already. */
  datatype GameInfo = GameInfo(score: int, coins: int, keyFlags: bv8, level: int, levelSpawned: bool)

  /** `GameInfo::default()`: every field zero or false. */
  const DefaultInfo := GameInfo(0, 0, 0, 0, false)

  /** The marker components the lifecycle systems query by. */
  datatype Tag = LevelObject | PlayerKeys | Player | Monster

  /** What a spawn command creates: the entity's markers and, for a
      creature, its stats. */
  datatype Spawned = Spawned(tags: set<Tag>, stats: Option<CreatureStats>)

  /** A deferred world change queued through `Commands`. */
  datatype Command = Despawn(e: Entity) | Spawn(s: Spawned)

  /** The `MapData` resource: the current level's grid and the player's
      start cell, both absent in the default value. */
  datatype MapData = MapData(grid: Option<Map>, playerPos: Option<Coords>)

  const DefaultMapData := MapData(None, None)

  /** The live entities with their markers, the stats component of those
      that have one, and the next unused entity id. */
  datatype Registry = Registry(tags: map<Entity, set<Tag>>, stats: map<Entity, CreatureStats>, nextId: nat)

  /** Stats only belong to live entities, and every live id was handed out. */
  ghost predicate Valid(r: Registry) {
    r.stats.Keys <= r.tags.Keys && forall e :: e in r.tags ==> e < r.nextId
  }

  /** One queued command taking effect. Despawning an entity that is already
      gone changes nothing. */
  function Run(r: Registry, c: Command): Registry {
    match c
    case Despawn(e) => r.(tags := r.tags - {e}, stats := r.stats - {e})
    case Spawn(s) =>
      Registry(r.tags[r.nextId := s.tags],
               if s.stats.Some? then r.stats[r.nextId := s.stats.value] else r.stats,
               r.nextId + 1)
  }

  /** The queue applied in order. */
  function Flush(r: Registry, cmds: seq<Command>): Registry
    decreases |cmds|
  {
    if cmds == [] then r else Run(Flush(r, cmds[..|cmds| - 1]), cmds[|cmds| - 1])
  }

  lemma RunValid(r: Registry, c: Command)
    requires Valid(r)
    ensures Valid(Run(r, c)) && Run(r, c).nextId >= r.nextId
  {
  }

  /** Applying commands keeps the registry consistent and never reuses an id. */
  lemma {:induction false} FlushValid(r: Registry, cmds: seq<Command>)
    requires Valid(r)
    ensures Valid(Flush(r, cmds)) && Flush(r, cmds).nextId >= r.nextId
    decreases |cmds|
  {
    if cmds != [] {
      FlushValid(r, cmds[..|cmds| - 1]);
      RunValid(Flush(r, cmds[..|cmds| - 1]), cmds[|cmds| - 1]);
    }
  }

  /** An entity that existed before the flush and has a despawn queued is
      gone afterwards: later spawns only hand out new ids. */
  lemma {:induction false} FlushDespawns(r: Registry, cmds: seq<Command>, e: Entity)
    requires Valid(r) && e < r.nextId && Despawn(e) in cmds
    ensures e !in Flush(r, cmds).tags && e !in Flush(r, cmds).stats
    decreases |cmds|
  {
    var n := |cmds| - 1;
    var prefix := cmds[..n];
    FlushValid(r, prefix);
    if Despawn(e) in prefix {
      FlushDespawns(r, prefix, e);
    } else {
      assert cmds == prefix + [cmds[n]];
      assert cmds[n] == Despawn(e);
    }
  }

  /** An entity with no despawn queued keeps its markers and stats. */
  lemma {:induction false} FlushKeeps(r: Registry, cmds: seq<Command>, e: Entity)
    requires Valid(r) && e in r.tags && Despawn(e) !in cmds
    ensures e in Flush(r, cmds).tags && Flush(r, cmds).tags[e] == r.tags[e]
    ensures (e in Flush(r, cmds).stats) == (e in r.stats)
    ensures e in r.stats ==> Flush(r, cmds).stats[e] == r.stats[e]
    decreases |cmds|
  {
    if cmds != [] {
      var n := |cmds| - 1;
      assert cmds == cmds[..n] + [cmds[n]];
      FlushKeeps(r, cmds[..n], e);
      FlushValid(r, cmds[..n]);
    }
  }

  /** Every entity alive after the flush was alive before or was spawned by
      it, with an id not handed out before. */
  lemma {:induction false} FlushFresh(r: Registry, cmds: seq<Command>, e: Entity)
    requires Valid(r) && e in Flush(r, cmds).tags && e !in r.tags
    ensures e >= r.nextId
    decreases |cmds|
  {
    if cmds != [] {
      var n := |cmds| - 1;
      var mid := Flush(r, cmds[..n]);
      FlushValid(r, cmds[..n]);
      if e in mid.tags {
        FlushFresh(r, cmds[..n], e);
      }
    }
  }

  /** Flushing two queues one after the other is flushing them joined. */
  lemma {:induction false} FlushAppend(r: Registry, a: seq<Command>, b: seq<Command>)
    ensures Flush(r, a + b) == Flush(Flush(r, a), b)
    decreases |b|
  {
    if b == [] {
      assert a + b == a;
    } else {
      var n := |b| - 1;
      assert (a + b)[..|a + b| - 1] == a + b[..n];
      FlushAppend(r, a, b[..n]);
    }
  }

  /** A queue of despawns only removes entities: the survivors keep their
      markers and stats, and no id is handed out. */
  lemma {:induction false} FlushDespawnsOnly(r: Registry, cmds: seq<Command>)
    requires forall i :: 0 <= i < |cmds| ==> cmds[i].Despawn?
    ensures Flush(r, cmds).nextId == r.nextId
    ensures Flush(r, cmds).tags.Keys <= r.tags.Keys
    ensures forall e :: e in Flush(r, cmds).tags ==> Flush(r, cmds).tags[e] == r.tags[e]
    ensures forall e :: e in Flush(r, cmds).stats ==> e in r.stats && Flush(r, cmds).stats[e] == r.stats[e]
    decreases |cmds|
  {
    if cmds != [] {
      FlushDespawnsOnly(r, cmds[..|cmds| - 1]);
    }
  }

  /** A queue of spawns only hands out the next ids in order: the entity of
      the command at position `e - nextId` gets id `e`, with that command's
      markers and stats. */
  lemma {:induction false} FlushSpawnsOnly(r: Registry, cmds: seq<Command>)
    requires forall i :: 0 <= i < |cmds| ==> cmds[i].Spawn?
    ensures Flush(r, cmds).nextId == r.nextId + |cmds|
    ensures forall e :: r.nextId <= e < r.nextId + |cmds| ==>
      e in Flush(r, cmds).tags && Flush(r, cmds).tags[e] == cmds[e - r.nextId].s.tags
    ensures forall e :: r.nextId <= e < r.nextId + |cmds| && cmds[e - r.nextId].s.stats.Some? ==>
      e in Flush(r, cmds).stats && Flush(r, cmds).stats[e] == cmds[e - r.nextId].s.stats.value
    decreases |cmds|
  {
    if cmds != [] {
      var n := |cmds| - 1;
      FlushSpawnsOnly(r, cmds[..n]);
      assert forall i :: 0 <= i < n ==> cmds[..n][i] == cmds[i];
    }
  }

  /** A command in a queue stays in every queue that extends it. */
  lemma StaysQueued(a: seq<Command>, b: seq<Command>, c: Command)
    requires c in a && |a| <= |b| && b[..|a|] == a
    ensures c in b
  {
    var k :| 0 <= k < |a| && a[k] == c;
    assert b[k] == a[k];
  }

  /** The mutable state a game-rule system touches in one pass, together with
      the commands it has queued so far. */
  datatype Effects = Effects(stats: map<Entity, CreatureStats>, info: GameInfo, next: Option<GameState>, cmds: seq<Command>)

  /** The engine's world: session state, resources and the entity registry. */
  class World {
    /** The current session state and the one requested for the next frame
        (`State<GameState>` and `NextState<GameState>`). */
    var state: GameState
    var next: Option<GameState>
    var info: GameInfo
    var mapData: MapData
    var tags: map<Entity, set<Tag>>
    var stats: map<Entity, CreatureStats>
    var nextId: nat

    function Reg(): Registry
      reads this
    {
      Registry(tags, stats, nextId)
    }

    /** A new session: the main menu (the default session state), default
        resources, no entities. */
    constructor ()
      ensures state == MainMenu && next == None
      ensures info == DefaultInfo && mapData == DefaultMapData
      ensures Reg() == Registry(map[], map[], 0) && Valid(Reg())
    {
      state, next, info, mapData := MainMenu, None, DefaultInfo, DefaultMapData;
      tags, stats, nextId := map[], map[], 0;
    }

    /** Applies the queued commands in order, one at a time. */
    method Apply(cmds: seq<Command>)
      modifies this
      ensures Reg() == Flush(old(Reg()), cmds)
      ensures state == old(state) && next == old(next) && info == old(info) && mapData == old(mapData)
    {
      var i := 0;
      while i < |cmds|
        invariant 0 <= i <= |cmds|
        invariant Reg() == Flush(old(Reg()), cmds[..i])
        invariant state == old(state) && next == old(next) && info == old(info) && mapData == old(mapData)
      {
        assert cmds[..i + 1][..i] == cmds[..i];
        match cmds[i] {
          case Despawn(e) =>
            tags := tags - {e};
            stats := stats - {e};
          case Spawn(s) =>
            tags := tags[nextId := s.tags];
            if s.stats.Some? {
              stats := stats[nextId := s.stats.value];
            }
            nextId := nextId + 1;
        }
        i := i + 1;
      }
      assert cmds[..i] == cmds;
    }
  }
}
