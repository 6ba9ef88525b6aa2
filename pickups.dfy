/** Pickup rules (src/pickup.rs): what each item gives, when it can be taken,
    what taking it changes, the bounded spawn-position search and the
    player-versus-pickup pass. */
module Pickups {
  import opened Wrappers
  import opened Tiles
  import opened Session

  datatype Pickup = Apple | MedPack | NextLevel | Coin | CoinPile | SilverKey | GoldKey | RedKey | GreenKey

  /** What taking a pickup gives: health, the level-advance trigger, coins or
      one key bit. */
  datatype StatGain = Health(hpGain: int) | LevelTrigger | Coins(coinGain: int) | Key(mask: bv8)

  predicate IsHealth(p: Pickup) {
    p == Apple || p == MedPack
  }

  predicate IsCoin(p: Pickup) {
    p == Coin || p == CoinPile
  }

  predicate IsKey(p: Pickup) {
    p == SilverKey || p == GoldKey || p == RedKey || p == GreenKey
  }

  /** The gain table: each pickup maps to exactly one kind of gain, every
      health and coin gain is positive, and every key is one bit of the low
      nibble. */
  function ToStatGain(p: Pickup): (g: StatGain)
    ensures g.Health? <==> IsHealth(p)
    ensures g.Coins? <==> IsCoin(p)
    ensures g.Key? <==> IsKey(p)
    ensures g.LevelTrigger? <==> p == Pickup.NextLevel
    ensures g.Health? ==> g.hpGain > 0
    ensures g.Coins? ==> g.coinGain > 0
    ensures g.Key? ==> g.mask != 0 && g.mask & (g.mask - 1) == 0 && g.mask & 0xF0 == 0
  {
    match p
    case Apple => Health(15)
    case MedPack => Health(45)
    case NextLevel => LevelTrigger
    case Coin => Coins(1)
    case CoinPile => Coins(5)
    case SilverKey => Key(0x1)
    case GoldKey => Key(0x2)
    case RedKey => Key(0x4)
    case GreenKey => Key(0x8)
  }

  /** Different keys set different bits, so holding one key never implies
      holding another. */
  lemma KeyMasksDisjoint(p: Pickup, q: Pickup)
    requires IsKey(p) && IsKey(q) && p != q
    ensures ToStatGain(p).mask & ToStatGain(q).mask == 0
  {
  }

  /** A health pickup is refused exactly when the taker is at or above full
      health; every other pickup can always be taken. */
  function CanTake(p: Pickup, s: CreatureStats): (r: bool)
    ensures !r <==> IsHealth(p) && s.hp >= s.hpMax
  {
    match ToStatGain(p)
    case Health(_) => s.hp < s.hpMax
    case _ => true
  }

  function Min(a: int, b: int): int {
    if a <= b then a else b
  }

  /** The effect of `take` for the creature `taker`: health is raised and
      clamped to the maximum, coins grow by the gain, a key bit is or-ed in,
      or the next session state is set. Nothing else changes. */
  function Taken(p: Pickup, e: Effects, taker: Entity): (r: Effects)
    requires taker in e.stats
    ensures r.stats.Keys == e.stats.Keys && r.cmds == e.cmds
    ensures forall x :: x in e.stats && x != taker ==> r.stats[x] == e.stats[x]
    ensures var s, t := e.stats[taker], r.stats[taker];
      t.team == s.team && t.hpMax == s.hpMax &&
      (IsHealth(p) ==> t.hp == Min(s.hp + ToStatGain(p).hpGain, s.hpMax) && t.hp <= s.hpMax) &&
      (!IsHealth(p) ==> t == s)
    ensures IsCoin(p) ==> r.info == e.info.(coins := e.info.coins + ToStatGain(p).coinGain)
    ensures IsKey(p) ==> r.info.keyFlags == e.info.keyFlags | ToStatGain(p).mask
    ensures IsKey(p) ==> r.info == e.info.(keyFlags := r.info.keyFlags)
    ensures !IsCoin(p) && !IsKey(p) ==> r.info == e.info
    ensures p == Pickup.NextLevel ==> r.next == Some(GameState.NextLevel)
    ensures p != Pickup.NextLevel ==> r.next == e.next
  {
    match ToStatGain(p)
    case Health(gain) =>
      var s := e.stats[taker];
      e.(stats := e.stats[taker := s.(hp := Min(s.hp + gain, s.hpMax))])
    case LevelTrigger => e.(next := Some(GameState.NextLevel))
    case Coins(gain) => e.(info := e.info.(coins := e.info.coins + gain))
    case Key(mask) => e.(info := e.info.(keyFlags := e.info.keyFlags | mask))
  }

  /** Taking the same key twice is the same as taking it once. */
  lemma TakeKeyTwice(p: Pickup, e: Effects, taker: Entity)
    requires taker in e.stats && IsKey(p)
    ensures Taken(p, Taken(p, e, taker), taker) == Taken(p, e, taker)
  {
  }

  /** Every pickup but the level trigger has a sound. */
  function ToSound(p: Pickup): (r: Option<string>)
    ensures r.None? <==> p == Pickup.NextLevel
  {
    match ToStatGain(p)
    case Health(_) => Some("pickup_heal.ogg")
    case LevelTrigger => None
    case Coins(_) => Some("pickup_coins.ogg")
    case Key(_) => Some("pickup_key.ogg")
  }

  /** `take` applied to the world; `queued` stands for the commands queued
      so far, which taking leaves alone. */
  method Take(p: Pickup, w: World, taker: Entity, ghost queued: seq<Command>)
    requires taker in w.stats
    modifies w
    ensures Effects(w.stats, w.info, w.next, queued) == Taken(p, Effects(old(w.stats), old(w.info), old(w.next), queued), taker)
    ensures w.state == old(w.state) && w.mapData == old(w.mapData)
    ensures w.tags == old(w.tags) && w.nextId == old(w.nextId)
  {
    match ToStatGain(p) {
      case Health(gain) =>
        var s := w.stats[taker];
        w.stats := w.stats[taker := s.(hp := Min(s.hp + gain, s.hpMax))];
      case LevelTrigger =>
        w.next := Some(GameState.NextLevel);
      case Coins(gain) =>
        w.info := w.info.(coins := w.info.coins + gain);
      case Key(mask) =>
        w.info := w.info.(keyFlags := w.info.keyFlags | mask);
    }
  }

  /** The number of tries of the spawn-position search. */
  const SpawnAttempts: nat := 4096

  /** The k-th candidate position: two draws, mapped into [1, cols - 1) and
      [1, rows - 1). */
  function Candidate(m: Map, draws: seq<nat>, k: nat): (c: Coords)
    requires m.tiles.Length0 >= 3 && m.tiles.Length1 >= 3 && 2 * k + 1 < |draws|
    ensures 1 <= c.x < m.tiles.Length0 - 1 && 1 <= c.y < m.tiles.Length1 - 1
  {
    Coords(1 + draws[2 * k] % (m.tiles.Length0 - 2), 1 + draws[2 * k + 1] % (m.tiles.Length1 - 2))
  }

  /** Picks the first open candidate among at most 4096 tries. `draws` are
      the random numbers the generator yields; `used` says how many the
      search consumed. */
  method ChooseSpawnPos(m: Map, draws: seq<nat>) returns (r: Result<Coords, string>, used: nat)
    requires m.tiles.Length0 >= 3 && m.tiles.Length1 >= 3 && |draws| >= 2 * SpawnAttempts
    ensures r.Ok? ==> !m.IsSolid(r.value.x, r.value.y)
    ensures r.Ok? ==> 1 <= r.value.x < m.tiles.Length0 - 1 && 1 <= r.value.y < m.tiles.Length1 - 1
    ensures r.Ok? ==> 2 <= used <= 2 * SpawnAttempts && used % 2 == 0 && r.value == Candidate(m, draws, used / 2 - 1)
    ensures r.Ok? ==> forall k :: 0 <= k < used / 2 - 1 ==> m.IsSolid(Candidate(m, draws, k).x, Candidate(m, draws, k).y)
    ensures r.Err? <==> forall k :: 0 <= k < SpawnAttempts ==> m.IsSolid(Candidate(m, draws, k).x, Candidate(m, draws, k).y)
    ensures r.Err? ==> used == 2 * SpawnAttempts
  {
    var k := 0;
    while k < SpawnAttempts
      invariant 0 <= k <= SpawnAttempts
      invariant forall j :: 0 <= j < k ==> m.IsSolid(Candidate(m, draws, j).x, Candidate(m, draws, j).y)
    {
      var x := 1 + draws[2 * k] % (m.tiles.Length0 - 2);
      var z := 1 + draws[2 * k + 1] % (m.tiles.Length1 - 2);
      if m.TileAt(x, z).IsSolid() {
        k := k + 1;
        continue;
      }
      return Ok(Coords(x, z)), 2 * k + 2;
    }
    return Err("Could not find a proper item spawn pos"), 2 * SpawnAttempts;
  }

  /** One (player, pickup) pair: out of range or refused changes nothing;
      otherwise the pickup is taken and its despawn queued. */
  function PickupPair(e: Effects, player: Entity, item: (Entity, Pickup), near: (Entity, Entity) -> bool): (r: Effects)
    requires player in e.stats
    ensures r.stats.Keys == e.stats.Keys
    ensures r.cmds == e.cmds ==> r == e
    ensures r.cmds != e.cmds <==> near(player, item.0) && CanTake(item.1, e.stats[player])
    ensures r.cmds != e.cmds ==> r == Taken(item.1, e, player).(cmds := e.cmds + [Despawn(item.0)])
  {
    if !near(player, item.0) || !CanTake(item.1, e.stats[player]) then e
    else Taken(item.1, e, player).(cmds := e.cmds + [Despawn(item.0)])
  }

  /** One player against every pickup, in query order. */
  function PlayerPass(e: Effects, player: Entity, items: seq<(Entity, Pickup)>, near: (Entity, Entity) -> bool): (r: Effects)
    requires player in e.stats
    ensures r.stats.Keys == e.stats.Keys
    decreases |items|
  {
    if items == [] then e
    else
      var n := |items| - 1;
      PickupPair(PlayerPass(e, player, items[..n], near), player, items[n], near)
  }

  /** `check_pickups`: every player against every pickup. */
  function PickupPass(e: Effects, players: seq<Entity>, items: seq<(Entity, Pickup)>, near: (Entity, Entity) -> bool): (r: Effects)
    requires forall i :: 0 <= i < |players| ==> players[i] in e.stats
    ensures r.stats.Keys == e.stats.Keys
    decreases |players|
  {
    if players == [] then e
    else
      var n := |players| - 1;
      PlayerPass(PickupPass(e, players[..n], items, near), players[n], items, near)
  }

  /** The inner loop of `check_pickups`: one player against every pickup,
      appending to the commands `queued` so far. */
  method PickupsFor(w: World, player: Entity, items: seq<(Entity, Pickup)>, near: (Entity, Entity) -> bool,
                    queued: seq<Command>) returns (cmds: seq<Command>)
    requires player in w.stats
    modifies w
    ensures Effects(w.stats, w.info, w.next, cmds) ==
      PlayerPass(Effects(old(w.stats), old(w.info), old(w.next), queued), player, items, near)
    ensures w.state == old(w.state) && w.mapData == old(w.mapData)
    ensures w.tags == old(w.tags) && w.nextId == old(w.nextId)
  {
    ghost var e0 := Effects(w.stats, w.info, w.next, queued);
    cmds := queued;
    var j := 0;
    while j < |items|
      invariant 0 <= j <= |items|
      invariant Effects(w.stats, w.info, w.next, cmds) == PlayerPass(e0, player, items[..j], near)
      invariant w.state == old(w.state) && w.mapData == old(w.mapData)
      invariant w.tags == old(w.tags) && w.nextId == old(w.nextId)
    {
      assert items[..j + 1][..j] == items[..j];
      var (entity, pickup) := items[j];
      if near(player, entity) && CanTake(pickup, w.stats[player]) {
        Take(pickup, w, player, cmds);
        cmds := cmds + [Despawn(entity)];
      }
      j := j + 1;
    }
    assert items[..j] == items;
  }

  /** `check_pickups` on the world: every player against every pickup,
      taking what is in range and can be taken and queuing the taken
      pickups' despawns. Despawns are deferred, so a pickup stays in the
      iteration after it is taken. */
  method CheckPickups(w: World, players: seq<Entity>, items: seq<(Entity, Pickup)>, near: (Entity, Entity) -> bool)
    returns (cmds: seq<Command>)
    requires forall i :: 0 <= i < |players| ==> players[i] in w.stats
    modifies w
    ensures Effects(w.stats, w.info, w.next, cmds) ==
      PickupPass(Effects(old(w.stats), old(w.info), old(w.next), []), players, items, near)
    ensures w.state == old(w.state) && w.mapData == old(w.mapData)
    ensures w.tags == old(w.tags) && w.nextId == old(w.nextId)
  {
    ghost var e0 := Effects(w.stats, w.info, w.next, []);
    cmds := [];
    var i := 0;
    while i < |players|
      invariant 0 <= i <= |players|
      invariant w.stats.Keys == e0.stats.Keys
      invariant Effects(w.stats, w.info, w.next, cmds) == PickupPass(e0, players[..i], items, near)
      invariant w.state == old(w.state) && w.mapData == old(w.mapData)
      invariant w.tags == old(w.tags) && w.nextId == old(w.nextId)
    {
      assert players[..i + 1][..i] == players[..i];
      cmds := PickupsFor(w, players[i], items, near, cmds);
      i := i + 1;
    }
    assert players[..i] == players;
  }

  /** Every creature's hp is at most its maximum. */
  ghost predicate HpBounded(stats: map<Entity, CreatureStats>) {
    forall x :: x in stats ==> stats[x].hp <= stats[x].hpMax
  }

  /** What a pickup pass can do to the shared state: keys are only added,
      coins only grow, score and level are untouched, creatures keep their
      stats entries and maxima, hp never falls and no hp bound is broken,
      and commands are only appended. */
  ghost predicate Grows(e: Effects, r: Effects) {
    e.info.keyFlags & r.info.keyFlags == e.info.keyFlags &&
    r.info.coins >= e.info.coins &&
    r.info.score == e.info.score && r.info.level == e.info.level &&
    r.info.levelSpawned == e.info.levelSpawned &&
    r.stats.Keys == e.stats.Keys &&
    (forall x :: x in e.stats ==> r.stats[x].hpMax == e.stats[x].hpMax && r.stats[x].hp >= e.stats[x].hp) &&
    (HpBounded(e.stats) ==> HpBounded(r.stats)) &&
    |e.cmds| <= |r.cmds| && r.cmds[..|e.cmds|] == e.cmds
  }

  lemma GrowsTrans(a: Effects, b: Effects, c: Effects)
    requires Grows(a, b) && Grows(b, c)
    ensures Grows(a, c)
  {
    assert c.cmds[..|b.cmds|][..|a.cmds|] == c.cmds[..|a.cmds|];
  }

  /** Or-ing bits into a flag byte keeps the bits it had and sets the new ones. */
  lemma OrKeeps(a: bv8, m: bv8)
    ensures a & (a | m) == a && m & (a | m) == m
  {
  }

  lemma TakenGrows(p: Pickup, e: Effects, taker: Entity, item: Entity)
    requires taker in e.stats && CanTake(p, e.stats[taker])
    ensures Grows(e, Taken(p, e, taker).(cmds := e.cmds + [Despawn(item)]))
  {
    var r := Taken(p, e, taker).(cmds := e.cmds + [Despawn(item)]);
    if IsKey(p) {
      OrKeeps(e.info.keyFlags, ToStatGain(p).mask);
    }
    assert r.cmds[..|e.cmds|] == e.cmds;
    if HpBounded(e.stats) {
      forall x | x in r.stats
        ensures r.stats[x].hp <= r.stats[x].hpMax
      {
        if x != taker {
          assert r.stats[x] == e.stats[x];
        }
      }
    }
  }

  lemma PairGrows(e: Effects, player: Entity, item: (Entity, Pickup), near: (Entity, Entity) -> bool)
    requires player in e.stats
    ensures Grows(e, PickupPair(e, player, item, near))
  {
    if near(player, item.0) && CanTake(item.1, e.stats[player]) {
      TakenGrows(item.1, e, player, item.0);
    } else {
      assert e.cmds[..|e.cmds|] == e.cmds;
    }
  }

  lemma {:induction false} PlayerPassGrows(e: Effects, player: Entity, items: seq<(Entity, Pickup)>, near: (Entity, Entity) -> bool)
    requires player in e.stats
    ensures Grows(e, PlayerPass(e, player, items, near))
    decreases |items|
  {
    if items == [] {
      assert e.cmds[..|e.cmds|] == e.cmds;
    } else {
      var n := |items| - 1;
      var mid := PlayerPass(e, player, items[..n], near);
      PlayerPassGrows(e, player, items[..n], near);
      PairGrows(mid, player, items[n], near);
      GrowsTrans(e, mid, PickupPair(mid, player, items[n], near));
    }
  }

  /** A whole pickup pass only adds keys, never lowers coins, leaves score
      and level alone, keeps every hp within its maximum, and only appends
      commands. */
  lemma {:induction false} PickupPassGrows(e: Effects, players: seq<Entity>, items: seq<(Entity, Pickup)>, near: (Entity, Entity) -> bool)
    requires forall i :: 0 <= i < |players| ==> players[i] in e.stats
    ensures Grows(e, PickupPass(e, players, items, near))
    decreases |players|
  {
    if players == [] {
      assert e.cmds[..|e.cmds|] == e.cmds;
    } else {
      var n := |players| - 1;
      var mid := PickupPass(e, players[..n], items, near);
      PickupPassGrows(e, players[..n], items, near);
      PlayerPassGrows(mid, players[n], items, near);
      GrowsTrans(e, mid, PlayerPass(mid, players[n], items, near));
    }
  }

  /** Each command a player's pass queues despawns a pickup that is in range
      of that player. */
  lemma {:induction false} PlayerPassDespawnsInRange(e: Effects, player: Entity, items: seq<(Entity, Pickup)>,
                                                     near: (Entity, Entity) -> bool, k: nat)
    requires player in e.stats
    requires |e.cmds| <= k < |PlayerPass(e, player, items, near).cmds|
    ensures var c := PlayerPass(e, player, items, near).cmds[k];
      c.Despawn? && exists j :: 0 <= j < |items| && items[j].0 == c.e && near(player, c.e)
    decreases |items|
  {
    var n := |items| - 1;
    var mid := PlayerPass(e, player, items[..n], near);
    PlayerPassGrows(e, player, items[..n], near);
    if k < |mid.cmds| {
      PlayerPassDespawnsInRange(e, player, items[..n], near, k);
      var c := mid.cmds[k];
      var j :| 0 <= j < n && items[..n][j].0 == c.e && near(player, c.e);
      assert items[j] == items[..n][j];
    } else {
      assert PickupPair(mid, player, items[n], near).cmds == mid.cmds + [Despawn(items[n].0)];
    }
  }

  /** A pickup whose despawn the pass queues was in range of some player:
      nothing out of every player's reach disappears. */
  lemma {:induction false} PickupPassDespawnsInRange(e: Effects, players: seq<Entity>, items: seq<(Entity, Pickup)>,
                                                     near: (Entity, Entity) -> bool, k: nat)
    requires forall i :: 0 <= i < |players| ==> players[i] in e.stats
    requires |e.cmds| <= k < |PickupPass(e, players, items, near).cmds|
    ensures var c := PickupPass(e, players, items, near).cmds[k];
      c.Despawn? && exists i, j :: 0 <= i < |players| && 0 <= j < |items| && items[j].0 == c.e && near(players[i], c.e)
    decreases |players|
  {
    var n := |players| - 1;
    var mid := PickupPass(e, players[..n], items, near);
    PickupPassGrows(e, players[..n], items, near);
    PlayerPassGrows(mid, players[n], items, near);
    if k < |mid.cmds| {
      PickupPassDespawnsInRange(e, players[..n], items, near, k);
      var c := mid.cmds[k];
      var i, j :| 0 <= i < n && 0 <= j < |items| && items[j].0 == c.e && near(players[..n][i], c.e);
      assert players[i] == players[..n][i];
      assert PlayerPass(mid, players[n], items, near).cmds[k] == c;
    } else {
      PlayerPassDespawnsInRange(mid, players[n], items, near, k);
    }
  }

  /** A command already queued stays queued through a player's pass. */
  lemma PlayerPassKeeps(e: Effects, player: Entity, items: seq<(Entity, Pickup)>, near: (Entity, Entity) -> bool,
                        c: Command)
    requires player in e.stats && c in e.cmds
    ensures c in PlayerPass(e, player, items, near).cmds
  {
    PlayerPassGrows(e, player, items, near);
    StaysQueued(e.cmds, PlayerPass(e, player, items, near).cmds, c);
  }

  /** A pickup that is not a health item and is in range of the player is
      taken: its despawn is queued. */
  lemma {:induction false} PlayerPassTakes(e: Effects, player: Entity, items: seq<(Entity, Pickup)>,
                                           near: (Entity, Entity) -> bool, j: nat)
    requires player in e.stats
    requires j < |items| && near(player, items[j].0) && !IsHealth(items[j].1)
    ensures Despawn(items[j].0) in PlayerPass(e, player, items, near).cmds
    decreases |items|
  {
    var n := |items| - 1;
    var mid := PlayerPass(e, player, items[..n], near);
    assert PlayerPass(e, player, items, near) == PickupPair(mid, player, items[n], near);
    if j < n {
      assert items[..n][j] == items[j];
      PlayerPassTakes(e, player, items[..n], near, j);
      PairGrows(mid, player, items[n], near);
      StaysQueued(mid.cmds, PickupPair(mid, player, items[n], near).cmds, Despawn(items[j].0));
    } else {
      assert PickupPair(mid, player, items[n], near).cmds == mid.cmds + [Despawn(items[n].0)];
    }
  }

  /** The converse of PickupPassDespawnsInRange for pickups that are not
      health items: each one in range of some player is despawned. */
  lemma {:induction false} PickupPassTakes(e: Effects, players: seq<Entity>, items: seq<(Entity, Pickup)>,
                                           near: (Entity, Entity) -> bool, i: nat, j: nat)
    requires forall k :: 0 <= k < |players| ==> players[k] in e.stats
    requires i < |players| && j < |items| && near(players[i], items[j].0) && !IsHealth(items[j].1)
    ensures Despawn(items[j].0) in PickupPass(e, players, items, near).cmds
    decreases |players|
  {
    var n := |players| - 1;
    var mid := PickupPass(e, players[..n], items, near);
    assert PickupPass(e, players, items, near) == PlayerPass(mid, players[n], items, near);
    if i < n {
      assert players[..n][i] == players[i];
      PickupPassTakes(e, players[..n], items, near, i, j);
      PlayerPassKeeps(mid, players[n], items, near, Despawn(items[j].0));
    } else {
      PlayerPassTakes(mid, players[n], items, near, j);
    }
  }

  /** The state a pickup pass has reached when player `i` meets pickup `j`. */
  function PassBefore(e: Effects, players: seq<Entity>, items: seq<(Entity, Pickup)>, near: (Entity, Entity) -> bool,
                      i: nat, j: nat): (r: Effects)
    requires forall k :: 0 <= k < |players| ==> players[k] in e.stats
    requires i < |players| && j <= |items|
    ensures r.stats.Keys == e.stats.Keys
  {
    assert forall k :: 0 <= k < i ==> players[..i][k] == players[k];
    PlayerPass(PickupPass(e, players[..i], items, near), players[i], items[..j], near)
  }

  lemma GrowsRefl(e: Effects)
    ensures Grows(e, e)
  {
    assert e.cmds[..|e.cmds|] == e.cmds;
  }

  /** After the pair (player, pickup `j`), the rest of a player's pass only
      grows the state. */
  lemma {:induction false} PlayerPassAfter(e: Effects, player: Entity, items: seq<(Entity, Pickup)>,
                                           near: (Entity, Entity) -> bool, j: nat)
    requires player in e.stats && j < |items|
    ensures Grows(PickupPair(PlayerPass(e, player, items[..j], near), player, items[j], near), PlayerPass(e, player, items, near))
    decreases |items|
  {
    var n := |items| - 1;
    var mid := PlayerPass(e, player, items[..n], near);
    assert PlayerPass(e, player, items, near) == PickupPair(mid, player, items[n], near);
    if j == n {
      GrowsRefl(PlayerPass(e, player, items, near));
    } else {
      assert items[..n][..j] == items[..j] && items[..n][j] == items[j];
      PlayerPassAfter(e, player, items[..n], near, j);
      PairGrows(mid, player, items[n], near);
      GrowsTrans(PickupPair(PlayerPass(e, player, items[..j], near), player, items[j], near), mid,
                 PickupPair(mid, player, items[n], near));
    }
  }

  /** After player `i` meets pickup `j`, the rest of the pickup pass only
      grows the state. */
  lemma {:induction false} PassAfter(e: Effects, players: seq<Entity>, items: seq<(Entity, Pickup)>,
                                     near: (Entity, Entity) -> bool, i: nat, j: nat)
    requires forall k :: 0 <= k < |players| ==> players[k] in e.stats
    requires i < |players| && j < |items|
    ensures Grows(PickupPair(PassBefore(e, players, items, near, i, j), players[i], items[j], near),
                  PickupPass(e, players, items, near))
    decreases |players|
  {
    var n := |players| - 1;
    var mid := PickupPass(e, players[..n], items, near);
    assert PickupPass(e, players, items, near) == PlayerPass(mid, players[n], items, near);
    if i == n {
      PlayerPassAfter(mid, players[n], items, near, j);
    } else {
      assert players[..n][..i] == players[..i] && players[..n][i] == players[i];
      assert PassBefore(e, players, items, near, i, j) == PassBefore(e, players[..n], items, near, i, j);
      PassAfter(e, players[..n], items, near, i, j);
      PlayerPassGrows(mid, players[n], items, near);
      GrowsTrans(PickupPair(PassBefore(e, players, items, near, i, j), players[i], items[j], near), mid,
                 PlayerPass(mid, players[n], items, near));
    }
  }

  /** A pickup pass is the state reached when player `i` meets pickup `j`,
      that pair, and then the rest of the pass; both stretches only grow
      the state. */
  lemma PassAt(e: Effects, players: seq<Entity>, items: seq<(Entity, Pickup)>, near: (Entity, Entity) -> bool,
               i: nat, j: nat)
    requires forall k :: 0 <= k < |players| ==> players[k] in e.stats
    requires i < |players| && j < |items|
    ensures Grows(e, PassBefore(e, players, items, near, i, j))
    ensures Grows(PickupPair(PassBefore(e, players, items, near, i, j), players[i], items[j], near),
                  PickupPass(e, players, items, near))
  {
    assert forall k :: 0 <= k < i ==> players[..i][k] == players[k];
    var pre := PickupPass(e, players[..i], items, near);
    PickupPassGrows(e, players[..i], items, near);
    PlayerPassGrows(pre, players[i], items[..j], near);
    GrowsTrans(e, pre, PassBefore(e, players, items, near, i, j));
    PassAfter(e, players, items, near, i, j);
  }

  /** Bits held before a stretch that grows the state are still held after it. */
  lemma GrowsKeepsBits(a: Effects, b: Effects, m: bv8)
    requires Grows(a, b) && m & a.info.keyFlags == m
    ensures m & b.info.keyFlags == m
  {
    assert m & b.info.keyFlags == (m & a.info.keyFlags) & b.info.keyFlags;
  }

  /** A key in range of a player is held after the pass: its bit is set. */
  lemma PickupPassKey(e: Effects, players: seq<Entity>, items: seq<(Entity, Pickup)>, near: (Entity, Entity) -> bool,
                      i: nat, j: nat)
    requires forall k :: 0 <= k < |players| ==> players[k] in e.stats
    requires i < |players| && j < |items| && near(players[i], items[j].0) && IsKey(items[j].1)
    ensures var m := ToStatGain(items[j].1).mask;
      PickupPass(e, players, items, near).info.keyFlags & m == m
  {
    var m := ToStatGain(items[j].1).mask;
    var x := PassBefore(e, players, items, near, i, j);
    var pair := PickupPair(x, players[i], items[j], near);
    PassAt(e, players, items, near, i, j);
    assert pair.info.keyFlags == x.info.keyFlags | m;
    OrKeeps(x.info.keyFlags, m);
    GrowsKeepsBits(pair, PickupPass(e, players, items, near), m);
  }

  /** A coin pickup in range of a player raises the coins by at least its
      value over the whole pass. */
  lemma PickupPassCoins(e: Effects, players: seq<Entity>, items: seq<(Entity, Pickup)>, near: (Entity, Entity) -> bool,
                        i: nat, j: nat)
    requires forall k :: 0 <= k < |players| ==> players[k] in e.stats
    requires i < |players| && j < |items| && near(players[i], items[j].0) && IsCoin(items[j].1)
    ensures PickupPass(e, players, items, near).info.coins >= e.info.coins + ToStatGain(items[j].1).coinGain
  {
    var x := PassBefore(e, players, items, near, i, j);
    PassAt(e, players, items, near, i, j);
    assert PickupPair(x, players[i], items[j], near).info.coins == x.info.coins + ToStatGain(items[j].1).coinGain;
  }

  /** A health pickup in range of a player is taken, unless that player is
      at or above full health, in which case they still are after the
      pass. */
  lemma PickupPassHealth(e: Effects, players: seq<Entity>, items: seq<(Entity, Pickup)>, near: (Entity, Entity) -> bool,
                         i: nat, j: nat)
    requires forall k :: 0 <= k < |players| ==> players[k] in e.stats
    requires i < |players| && j < |items| && near(players[i], items[j].0) && IsHealth(items[j].1)
    ensures var r := PickupPass(e, players, items, near);
      Despawn(items[j].0) in r.cmds || r.stats[players[i]].hp >= r.stats[players[i]].hpMax
  {
    var x := PassBefore(e, players, items, near, i, j);
    var pair := PickupPair(x, players[i], items[j], near);
    var r := PickupPass(e, players, items, near);
    PassAt(e, players, items, near, i, j);
    if CanTake(items[j].1, x.stats[players[i]]) {
      assert pair.cmds == x.cmds + [Despawn(items[j].0)];
      StaysQueued(pair.cmds, r.cmds, Despawn(items[j].0));
    } else {
      assert pair == x;
    }
  }

  /** Nothing happens when no pickup is in range of the player. */
  lemma {:induction false} PlayerPassOutOfRange(e: Effects, player: Entity, items: seq<(Entity, Pickup)>,
                                                near: (Entity, Entity) -> bool)
    requires player in e.stats
    requires forall j :: 0 <= j < |items| ==> !near(player, items[j].0)
    ensures PlayerPass(e, player, items, near) == e
    decreases |items|
  {
    if items != [] {
      PlayerPassOutOfRange(e, player, items[..|items| - 1], near);
    }
  }

  /** Nothing happens when no pickup is in range of any player: no gain, no
      state change and no despawn. */
  lemma {:induction false} PickupPassOutOfRange(e: Effects, players: seq<Entity>, items: seq<(Entity, Pickup)>,
                                                near: (Entity, Entity) -> bool)
    requires forall k :: 0 <= k < |players| ==> players[k] in e.stats
    requires forall i, j :: 0 <= i < |players| && 0 <= j < |items| ==> !near(players[i], items[j].0)
    ensures PickupPass(e, players, items, near) == e
    decreases |players|
  {
    if players != [] {
      var n := |players| - 1;
      PickupPassOutOfRange(e, players[..n], items, near);
      PlayerPassOutOfRange(e, players[n], items, near);
    }
  }
}
