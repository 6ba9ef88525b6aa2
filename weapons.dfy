/** Weapons and combat (src/weapon.rs): projectile damage, fire modes, the
    weapon's cooldown timer, the firing pass and the projectile-versus-
    creature pass. Time is counted in whole ticks. */
module Weapons {
  import opened Wrappers
  import opened Session

  datatype ProjectileType = RedSpikes | BlueBlob | Shock

  /** Damage per projectile type; every projectile hurts. */
  function Damage(t: ProjectileType): (d: int)
    ensures 2 <= d <= 4
  {
    match t
    case BlueBlob => 3
    case RedSpikes => 2
    case Shock => 4
  }

  /** A world position. Only equality of fire modes matters here, so the
      coordinates are kept as integers. */
  datatype Position = Position(x: int, y: int, z: int)

  datatype FireMode = NoFire | Fire | FireAt(target: Position)

  /** A one-shot countdown (the engine's `Timer` in `TimerMode::Once`):
      once finished it stays finished until reset, and a paused timer does
      not advance. */
  datatype Timer = Timer(duration: nat, elapsed: nat, finished: bool, paused: bool)

  /** A fresh timer of the given length (`Timer::from_seconds`). */
  function NewTimer(duration: nat): Timer {
    Timer(duration, 0, false, false)
  }

  /** Advances a timer by `dt` ticks. */
  function Tick(t: Timer, dt: nat): (r: Timer)
    ensures r.duration == t.duration && r.paused == t.paused
    ensures t.finished ==> r == t
    ensures t.paused ==> r == t
    ensures !t.paused && !t.finished ==> (r.finished <==> t.elapsed + dt >= t.duration)
    ensures t.elapsed <= t.duration ==> r.elapsed <= r.duration
  {
    if t.paused || t.finished then t
    else if t.elapsed + dt >= t.duration then t.(elapsed := t.duration, finished := true)
    else t.(elapsed := t.elapsed + dt)
  }

  /** Restarts a timer; a paused timer stays paused. A restarted running
      timer finishes on the first tick that covers its whole duration. */
  function Reset(t: Timer): (r: Timer)
    ensures r.duration == t.duration && r.paused == t.paused
    ensures r.elapsed == 0 && !r.finished
    ensures forall dt: nat :: Tick(r, dt).finished <==> !t.paused && dt >= t.duration
  {
    t.(elapsed := 0, finished := false)
  }

  /** The sum of a run of tick lengths. */
  function Sum(dts: seq<nat>): nat
    decreases |dts|
  {
    if dts == [] then 0 else Sum(dts[..|dts| - 1]) + dts[|dts| - 1]
  }

  /** A timer ticked through a run of frames. */
  function Ticks(t: Timer, dts: seq<nat>): Timer
    decreases |dts|
  {
    if dts == [] then t else Tick(Ticks(t, dts[..|dts| - 1]), dts[|dts| - 1])
  }

  /** A running timer finishes only once its duration has elapsed: before
      that it has counted exactly the ticks it was given. */
  lemma {:induction false} TicksBelowDuration(t: Timer, dts: seq<nat>)
    requires !t.paused && !t.finished && t.elapsed + Sum(dts) < t.duration
    ensures !Ticks(t, dts).finished && Ticks(t, dts).elapsed == t.elapsed + Sum(dts)
    ensures Ticks(t, dts).duration == t.duration && !Ticks(t, dts).paused
    decreases |dts|
  {
    if dts != [] {
      TicksBelowDuration(t, dts[..|dts| - 1]);
    }
  }

  /** The kind of projectile a weapon shoots and the team it belongs to. */
  datatype Projectile = Projectile(team: Team, damage: int)

  class Weapon {
    var firing: FireMode
    const projectile: ProjectileType
    var cooldown: Timer

    /** A weapon that holds fire, with a fresh cooldown of `fireSpeed` ticks. */
    constructor (projectile: ProjectileType, fireSpeed: nat)
      ensures firing == NoFire && this.projectile == projectile && cooldown == NewTimer(fireSpeed)
    {
      this.projectile := projectile;
      cooldown := NewTimer(fireSpeed);
      firing := NoFire;
    }

    /** Stores the mode; a paused cooldown resumes unless the mode is
        `NoFire`. */
    method SetFireState(f: FireMode)
      modifies this
      ensures firing == f
      ensures cooldown == if old(cooldown).paused && f != NoFire then old(cooldown).(paused := false) else old(cooldown)
    {
      firing := f;
      if cooldown.paused && f != NoFire {
        cooldown := cooldown.(paused := false);
      }
    }

    /** The projectile this weapon fires for a wielder of `team`. */
    function MakeProjectile(team: Team): (p: Projectile)
      ensures p.team == team && p.damage == Damage(projectile) && p.damage > 0
    {
      Projectile(team, Damage(projectile))
    }

    /** One weapon's turn in `fire_weapons`: tick the cooldown; when it has
        finished and the weapon is not holding fire, reset it and shoot. */
    method Fire(team: Team, dt: nat) returns (shot: Option<Projectile>)
      modifies this
      ensures firing == old(firing)
      ensures (cooldown, shot) == FireStep(old(firing), old(cooldown), projectile, team, dt)
    {
      cooldown := Tick(cooldown, dt);
      shot := None;
      if cooldown.finished {
        if firing == NoFire {
          return;
        }
        cooldown := Reset(cooldown);
        shot := Some(MakeProjectile(team));
      }
    }
  }

  /** The new cooldown and the shot (if any) of one weapon in a firing pass:
      a shot happens exactly when the ticked cooldown has finished and the
      mode is not `NoFire`; then the cooldown restarts. A finished cooldown
      with `NoFire` is left finished. */
  function FireStep(firing: FireMode, cooldown: Timer, kind: ProjectileType, team: Team, dt: nat): (r: (Timer, Option<Projectile>))
    ensures r.1.Some? <==> Tick(cooldown, dt).finished && firing != NoFire
    ensures r.1.Some? ==> r.1.value == Projectile(team, Damage(kind)) && r.0 == Reset(Tick(cooldown, dt))
    ensures r.1.None? ==> r.0 == Tick(cooldown, dt)
    ensures firing == NoFire && cooldown.finished ==> r == (cooldown, None)
  {
    var t := Tick(cooldown, dt);
    if t.finished && firing != NoFire then (Reset(t), Some(Projectile(team, Damage(kind)))) else (t, None)
  }

  /** A weapon that sat idle with a finished cooldown fires on the very
      first pass after its mode is set to fire, whatever the frame time. */
  lemma IdleWeaponFiresAtOnce(cooldown: Timer, f: FireMode, kind: ProjectileType, team: Team, dt: nat)
    requires cooldown.finished && f != NoFire
    ensures var c := if cooldown.paused then cooldown.(paused := false) else cooldown;
      FireStep(f, c, kind, team, dt).1 == Some(Projectile(team, Damage(kind)))
  {
  }

  /** After a shot the weapon cannot shoot again before `duration` ticks
      have passed. */
  lemma {:induction false} NoShotWithinCooldown(firing: FireMode, cooldown: Timer, kind: ProjectileType, team: Team,
                                                dt: nat, later: seq<nat>)
    requires FireStep(firing, cooldown, kind, team, dt).1.Some?
    requires !cooldown.paused && Sum(later) < cooldown.duration
    ensures !Ticks(FireStep(firing, cooldown, kind, team, dt).0, later).finished
  {
    TicksBelowDuration(FireStep(firing, cooldown, kind, team, dt).0, later);
  }

  /** What one weapon's firing depends on: its fire mode, its cooldown and
      the kind of projectile it shoots. */
  datatype Armed = Armed(firing: FireMode, cooldown: Timer, projectile: ProjectileType)

  /** The weapons' current state, one entry per weapon. */
  function Snapshot(ws: seq<Weapon>): (r: seq<Armed>)
    reads ws
    ensures |r| == |ws|
    ensures forall i :: 0 <= i < |ws| ==> r[i] == Armed(ws[i].firing, ws[i].cooldown, ws[i].projectile)
  {
    seq(|ws|, i reads ws requires 0 <= i < |ws| => Armed(ws[i].firing, ws[i].cooldown, ws[i].projectile))
  }

  /** The shot (if any) weapon `i` fires in a pass of `dt` ticks. */
  function ShotOf(ws: seq<Armed>, teams: seq<Team>, dt: nat, i: int): Option<Projectile>
    requires |teams| == |ws| && 0 <= i < |ws|
  {
    FireStep(ws[i].firing, ws[i].cooldown, ws[i].projectile, teams[i], dt).1
  }

  /** The projectiles a firing pass spawns, in query order: one for each
      weapon that fires and no other. */
  function Volley(ws: seq<Armed>, teams: seq<Team>, dt: nat): (r: seq<Projectile>)
    requires |teams| == |ws|
    ensures |r| <= |ws|
    ensures forall p :: p in r ==> p.damage > 0 && p.team in teams
    decreases |ws|
  {
    if ws == [] then []
    else
      var n := |ws| - 1;
      var shot := ShotOf(ws, teams, dt, n);
      Volley(ws[..n], teams[..n], dt) + if shot.Some? then [shot.value] else []
  }

  /** The weapons that fire are those of the first `n` that fire, plus the
      last one when it fires. */
  lemma FiringSplit(ws: seq<Armed>, teams: seq<Team>, dt: nat)
    requires |teams| == |ws| > 0
    ensures var n := |ws| - 1;
      (set i | 0 <= i < |ws| && ShotOf(ws, teams, dt, i).Some?) ==
      (set i | 0 <= i < n && ShotOf(ws[..n], teams[..n], dt, i).Some?) +
      (if ShotOf(ws, teams, dt, n).Some? then {n} else {})
  {
    var n := |ws| - 1;
    forall i | 0 <= i < n
      ensures ShotOf(ws[..n], teams[..n], dt, i) == ShotOf(ws, teams, dt, i)
    {
    }
  }

  /** A firing pass spawns exactly as many projectiles as there are weapons
      that fire. */
  lemma {:induction false} VolleyCount(ws: seq<Armed>, teams: seq<Team>, dt: nat)
    requires |teams| == |ws|
    ensures |Volley(ws, teams, dt)| == |set i | 0 <= i < |ws| && ShotOf(ws, teams, dt, i).Some?|
    decreases |ws|
  {
    if ws != [] {
      var n := |ws| - 1;
      VolleyCount(ws[..n], teams[..n], dt);
      FiringSplit(ws, teams, dt);
    }
  }

  /** The volley of the first `k` weapons is a prefix of the whole volley. */
  lemma {:induction false} VolleyPrefix(ws: seq<Armed>, teams: seq<Team>, dt: nat, k: nat)
    requires |teams| == |ws| && k <= |ws|
    ensures Volley(ws[..k], teams[..k], dt) <= Volley(ws, teams, dt)
    decreases |ws|
  {
    if k < |ws| {
      var n := |ws| - 1;
      assert ws[..n][..k] == ws[..k] && teams[..n][..k] == teams[..k];
      VolleyPrefix(ws[..n], teams[..n], dt, k);
    } else {
      assert ws[..k] == ws && teams[..k] == teams;
    }
  }

  /** Every weapon that fires contributes its shot, at the position given by
      the number of shots of the weapons before it. */
  lemma VolleyHasShot(ws: seq<Armed>, teams: seq<Team>, dt: nat, i: nat)
    requires |teams| == |ws| && i < |ws| && ShotOf(ws, teams, dt, i).Some?
    ensures var r, k := Volley(ws, teams, dt), |Volley(ws[..i], teams[..i], dt)|;
      k < |r| && r[k] == ShotOf(ws, teams, dt, i).value
  {
    assert ws[..i + 1][..i] == ws[..i] && teams[..i + 1][..i] == teams[..i];
    assert ShotOf(ws[..i + 1], teams[..i + 1], dt, i) == ShotOf(ws, teams, dt, i);
    assert Volley(ws[..i + 1], teams[..i + 1], dt) == Volley(ws[..i], teams[..i], dt) + [ShotOf(ws, teams, dt, i).value];
    VolleyPrefix(ws, teams, dt, i + 1);
  }

  /** Conversely, every projectile of the volley is the shot of a weapon
      that fires, and the shots come in weapon order. */
  lemma {:induction false} VolleyShotFrom(ws: seq<Armed>, teams: seq<Team>, dt: nat, k: nat)
    requires |teams| == |ws| && k < |Volley(ws, teams, dt)|
    ensures exists i :: (0 <= i < |ws| && ShotOf(ws, teams, dt, i) == Some(Volley(ws, teams, dt)[k]) &&
                         |Volley(ws[..i], teams[..i], dt)| == k)
    decreases |ws|
  {
    var n := |ws| - 1;
    var front := Volley(ws[..n], teams[..n], dt);
    if k < |front| {
      VolleyShotFrom(ws[..n], teams[..n], dt, k);
      var i :| 0 <= i < n && ShotOf(ws[..n], teams[..n], dt, i) == Some(front[k]) &&
        |Volley(ws[..n][..i], teams[..n][..i], dt)| == k;
      assert ws[..n][..i] == ws[..i] && teams[..n][..i] == teams[..i];
      assert ShotOf(ws[..n], teams[..n], dt, i) == ShotOf(ws, teams, dt, i);
    } else {
      assert ShotOf(ws, teams, dt, n) == Some(Volley(ws, teams, dt)[k]);
    }
  }

  /** `fire_weapons`: every wielded weapon takes its turn; `teams[i]` is the
      team of the creature holding `ws[i]`. */
  method FireWeapons(ws: seq<Weapon>, teams: seq<Team>, dt: nat) returns (shots: seq<Projectile>)
    requires |teams| == |ws|
    requires forall i, j :: 0 <= i < j < |ws| ==> ws[i] != ws[j]
    modifies ws
    ensures shots == Volley(old(Snapshot(ws)), teams, dt)
    ensures forall i :: 0 <= i < |ws| ==> (ws[i].firing == old(ws[i].firing) &&
      ws[i].cooldown == FireStep(old(ws[i].firing), old(ws[i].cooldown), ws[i].projectile, teams[i], dt).0)
  {
    ghost var before := Snapshot(ws);
    shots := [];
    var i := 0;
    while i < |ws|
      invariant 0 <= i <= |ws|
      invariant shots == Volley(before[..i], teams[..i], dt)
      invariant forall j :: 0 <= j < i ==> (ws[j].firing == before[j].firing &&
        ws[j].cooldown == FireStep(before[j].firing, before[j].cooldown, ws[j].projectile, teams[j], dt).0)
      invariant forall j :: i <= j < |ws| ==> ws[j].firing == before[j].firing && ws[j].cooldown == before[j].cooldown
    {
      shots := FireOne(ws, teams, dt, i, before, shots);
      i := i + 1;
    }
    assert before[..i] == before && teams[..i] == teams;
  }

  /** The turn of the `i`-th weapon in `fire_weapons`. */
  method FireOne(ws: seq<Weapon>, teams: seq<Team>, dt: nat, i: nat, ghost before: seq<Armed>, shots: seq<Projectile>)
    returns (more: seq<Projectile>)
    requires i < |ws| == |teams| == |before|
    requires shots == Volley(before[..i], teams[..i], dt)
    requires before[i] == Armed(ws[i].firing, ws[i].cooldown, ws[i].projectile)
    modifies ws[i]
    ensures more == Volley(before[..i + 1], teams[..i + 1], dt)
    ensures ws[i].firing == before[i].firing
    ensures ws[i].cooldown == FireStep(before[i].firing, before[i].cooldown, ws[i].projectile, teams[i], dt).0
  {
    assert before[..i + 1][..i] == before[..i] && teams[..i + 1][..i] == teams[..i];
    var shot := ws[i].Fire(teams[i], dt);
    more := shots;
    if shot.Some? {
      more := more + [shot.value];
    }
  }

  /** Score awarded for each creature of another team brought to zero hp. */
  const KillScore := 10

  /** One (projectile, target) pair of the collision pass. Same-team pairs
      and pairs out of range change nothing. Otherwise the target loses the
      projectile's damage; if its hp is then at most zero, a player's death
      ends the game, and any other creature is despawned for ten points,
      after which `goNext` decides whether the level is complete. Either way
      the projectile's despawn is queued. */
  function Hit(e: Effects, shot: (Entity, Projectile), target: Entity,
               near: (Entity, Entity) -> bool, goNext: GameInfo -> bool): (r: Effects)
    requires target in e.stats
    ensures r.stats.Keys == e.stats.Keys
    ensures forall x :: x in e.stats && x != target ==> r.stats[x] == e.stats[x]
    ensures r.stats[target].team == e.stats[target].team && r.stats[target].hpMax == e.stats[target].hpMax
  {
    var s := e.stats[target];
    if shot.1.team == s.team || !near(shot.0, target) then e
    else
      var hurt := s.(hp := s.hp - shot.1.damage);
      var e1 := e.(stats := e.stats[target := hurt]);
      var e2 :=
        if hurt.hp > 0 then e1
        else if hurt.team == Players then e1.(next := Some(GameOver))
        else
          var info := e1.info.(score := e1.info.score + KillScore);
          e1.(info := info, cmds := e1.cmds + [Despawn(target)],
              next := if goNext(info) then Some(GameState.NextLevel) else e1.next);
      e2.(cmds := e2.cmds + [Despawn(shot.0)])
  }

  /** A pair that connects: the target loses exactly the projectile's
      damage, the projectile's despawn is the last command queued, and when
      the target drops to zero hp exactly one of two things happens: the
      game is over (a player; no score, no despawn of the target), or the
      target is despawned and ten points are scored, with the next level
      requested exactly when `goNext` holds of the new score. */
  lemma HitConnects(e: Effects, shot: (Entity, Projectile), target: Entity,
                    near: (Entity, Entity) -> bool, goNext: GameInfo -> bool)
    requires target in e.stats && shot.1.team != e.stats[target].team && near(shot.0, target)
    ensures var r, s := Hit(e, shot, target, near, goNext), e.stats[target];
      r.stats[target].hp == s.hp - shot.1.damage &&
      |r.cmds| > |e.cmds| && r.cmds[|r.cmds| - 1] == Despawn(shot.0) &&
      (r.stats[target].hp > 0 ==> r.info == e.info && r.next == e.next && r.cmds == e.cmds + [Despawn(shot.0)]) &&
      (r.stats[target].hp <= 0 && s.team == Players ==>
         r.next == Some(GameOver) && r.info == e.info && r.cmds == e.cmds + [Despawn(shot.0)]) &&
      (r.stats[target].hp <= 0 && s.team != Players ==>
         r.info == e.info.(score := e.info.score + KillScore) &&
         r.cmds == e.cmds + [Despawn(target), Despawn(shot.0)] &&
         (goNext(r.info) ==> r.next == Some(GameState.NextLevel)) &&
         (!goNext(r.info) ==> r.next == e.next))
  {
  }

  /** One projectile against every target, in query order. */
  function TargetPass(e: Effects, shot: (Entity, Projectile), targets: seq<Entity>,
                      near: (Entity, Entity) -> bool, goNext: GameInfo -> bool): (r: Effects)
    requires forall i :: 0 <= i < |targets| ==> targets[i] in e.stats
    ensures r.stats.Keys == e.stats.Keys
    decreases |targets|
  {
    if targets == [] then e
    else
      var n := |targets| - 1;
      Hit(TargetPass(e, shot, targets[..n], near, goNext), shot, targets[n], near, goNext)
  }

  /** `check_projectile_creature_collisions`: every projectile against every
      creature. */
  function CollisionPass(e: Effects, shots: seq<(Entity, Projectile)>, targets: seq<Entity>,
                         near: (Entity, Entity) -> bool, goNext: GameInfo -> bool): (r: Effects)
    requires forall i :: 0 <= i < |targets| ==> targets[i] in e.stats
    ensures r.stats.Keys == e.stats.Keys
    decreases |shots|
  {
    if shots == [] then e
    else
      var n := |shots| - 1;
      TargetPass(CollisionPass(e, shots[..n], targets, near, goNext), shots[n], targets, near, goNext)
  }

  /** The body of the collision pass for one (projectile, target) pair. */
  method HitOne(w: World, shot: (Entity, Projectile), target: Entity,
                near: (Entity, Entity) -> bool, goNext: GameInfo -> bool, queued: seq<Command>)
    returns (cmds: seq<Command>)
    requires target in w.stats
    modifies w
    ensures Effects(w.stats, w.info, w.next, cmds) ==
      Hit(Effects(old(w.stats), old(w.info), old(w.next), queued), shot, target, near, goNext)
    ensures w.state == old(w.state) && w.mapData == old(w.mapData)
    ensures w.tags == old(w.tags) && w.nextId == old(w.nextId)
  {
    var (entity, projectile) := shot;
    cmds := queued;
    var stats := w.stats[target];
    if projectile.team == stats.team || !near(entity, target) {
      return;
    }
    stats := stats.(hp := stats.hp - projectile.damage);
    w.stats := w.stats[target := stats];
    if stats.hp <= 0 {
      if stats.team == Players {
        w.next := Some(GameOver);
      } else {
        cmds := cmds + [Despawn(target)];
        w.info := w.info.(score := w.info.score + KillScore);
        if goNext(w.info) {
          w.next := Some(GameState.NextLevel);
        }
      }
    }
    cmds := cmds + [Despawn(entity)];
  }

  /** The inner loop of the collision pass: one projectile against every
      target, appending to the commands `queued` so far. */
  method HitTargets(w: World, shot: (Entity, Projectile), targets: seq<Entity>,
                    near: (Entity, Entity) -> bool, goNext: GameInfo -> bool, queued: seq<Command>)
    returns (cmds: seq<Command>)
    requires forall i :: 0 <= i < |targets| ==> targets[i] in w.stats
    modifies w
    ensures Effects(w.stats, w.info, w.next, cmds) ==
      TargetPass(Effects(old(w.stats), old(w.info), old(w.next), queued), shot, targets, near, goNext)
    ensures w.state == old(w.state) && w.mapData == old(w.mapData)
    ensures w.tags == old(w.tags) && w.nextId == old(w.nextId)
  {
    ghost var e0 := Effects(w.stats, w.info, w.next, queued);
    cmds := queued;
    var i := 0;
    while i < |targets|
      invariant 0 <= i <= |targets|
      invariant w.stats.Keys == e0.stats.Keys
      invariant Effects(w.stats, w.info, w.next, cmds) == TargetPass(e0, shot, targets[..i], near, goNext)
      invariant w.state == old(w.state) && w.mapData == old(w.mapData)
      invariant w.tags == old(w.tags) && w.nextId == old(w.nextId)
    {
      assert targets[..i + 1][..i] == targets[..i];
      cmds := HitOne(w, shot, targets[i], near, goNext, cmds);
      i := i + 1;
    }
    assert targets[..i] == targets;
  }

  /** `check_projectile_creature_collisions` on the world. Despawns are
      deferred, so a projectile stays in the pass after a hit and a
      creature at zero hp stays a target. */
  method CheckCollisions(w: World, shots: seq<(Entity, Projectile)>, targets: seq<Entity>,
                         near: (Entity, Entity) -> bool, goNext: GameInfo -> bool) returns (cmds: seq<Command>)
    requires forall i :: 0 <= i < |targets| ==> targets[i] in w.stats
    modifies w
    ensures Effects(w.stats, w.info, w.next, cmds) ==
      CollisionPass(Effects(old(w.stats), old(w.info), old(w.next), []), shots, targets, near, goNext)
    ensures w.state == old(w.state) && w.mapData == old(w.mapData)
    ensures w.tags == old(w.tags) && w.nextId == old(w.nextId)
  {
    ghost var e0 := Effects(w.stats, w.info, w.next, []);
    cmds := [];
    var i := 0;
    while i < |shots|
      invariant 0 <= i <= |shots|
      invariant w.stats.Keys == e0.stats.Keys
      invariant Effects(w.stats, w.info, w.next, cmds) == CollisionPass(e0, shots[..i], targets, near, goNext)
      invariant w.state == old(w.state) && w.mapData == old(w.mapData)
      invariant w.tags == old(w.tags) && w.nextId == old(w.nextId)
    {
      assert shots[..i + 1][..i] == shots[..i];
      cmds := HitTargets(w, shots[i], targets, near, goNext, cmds);
      i := i + 1;
    }
    assert shots[..i] == shots;
  }

  /** What a collision pass can do to the shared state: creatures keep
      their entries and teams, the score only rises in steps of ten, the
      other session fields stay, and commands are only appended. */
  ghost predicate CombatGrows(e: Effects, r: Effects) {
    r.stats.Keys == e.stats.Keys &&
    (forall x :: x in e.stats ==> r.stats[x].team == e.stats[x].team) &&
    r.info.score >= e.info.score && (r.info.score - e.info.score) % KillScore == 0 &&
    r.info == e.info.(score := r.info.score) &&
    |e.cmds| <= |r.cmds| && r.cmds[..|e.cmds|] == e.cmds
  }

  lemma CombatGrowsTrans(a: Effects, b: Effects, c: Effects)
    requires CombatGrows(a, b) && CombatGrows(b, c)
    ensures CombatGrows(a, c)
  {
    assert c.cmds[..|b.cmds|][..|a.cmds|] == c.cmds[..|a.cmds|];
  }

  lemma HitGrows(e: Effects, shot: (Entity, Projectile), target: Entity,
                 near: (Entity, Entity) -> bool, goNext: GameInfo -> bool)
    requires target in e.stats
    ensures CombatGrows(e, Hit(e, shot, target, near, goNext))
  {
    var r := Hit(e, shot, target, near, goNext);
    if r != e {
      assert r.cmds[..|e.cmds|] == e.cmds;
    } else {
      assert e.cmds[..|e.cmds|] == e.cmds;
    }
  }

  lemma {:induction false} TargetPassGrows(e: Effects, shot: (Entity, Projectile), targets: seq<Entity>,
                                           near: (Entity, Entity) -> bool, goNext: GameInfo -> bool)
    requires forall i :: 0 <= i < |targets| ==> targets[i] in e.stats
    ensures CombatGrows(e, TargetPass(e, shot, targets, near, goNext))
    decreases |targets|
  {
    if targets == [] {
      assert e.cmds[..|e.cmds|] == e.cmds;
    } else {
      var n := |targets| - 1;
      var mid := TargetPass(e, shot, targets[..n], near, goNext);
      TargetPassGrows(e, shot, targets[..n], near, goNext);
      HitGrows(mid, shot, targets[n], near, goNext);
      CombatGrowsTrans(e, mid, Hit(mid, shot, targets[n], near, goNext));
    }
  }

  /** A whole collision pass keeps every creature's team, changes no session
      field but the score, raises the score by a multiple of ten, and only
      appends commands. */
  lemma {:induction false} CollisionPassGrows(e: Effects, shots: seq<(Entity, Projectile)>, targets: seq<Entity>,
                                              near: (Entity, Entity) -> bool, goNext: GameInfo -> bool)
    requires forall i :: 0 <= i < |targets| ==> targets[i] in e.stats
    ensures CombatGrows(e, CollisionPass(e, shots, targets, near, goNext))
    decreases |shots|
  {
    if shots == [] {
      assert e.cmds[..|e.cmds|] == e.cmds;
    } else {
      var n := |shots| - 1;
      var mid := CollisionPass(e, shots[..n], targets, near, goNext);
      CollisionPassGrows(e, shots[..n], targets, near, goNext);
      TargetPassGrows(mid, shots[n], targets, near, goNext);
      CombatGrowsTrans(e, mid, TargetPass(mid, shots[n], targets, near, goNext));
    }
  }

  lemma {:induction false} TargetPassSparesTeam(e: Effects, shot: (Entity, Projectile), targets: seq<Entity>,
                                                near: (Entity, Entity) -> bool, goNext: GameInfo -> bool, x: Entity)
    requires forall i :: 0 <= i < |targets| ==> targets[i] in e.stats
    requires x in e.stats && shot.1.team == e.stats[x].team
    ensures TargetPass(e, shot, targets, near, goNext).stats[x] == e.stats[x]
    decreases |targets|
  {
    if targets != [] {
      var n := |targets| - 1;
      TargetPassSparesTeam(e, shot, targets[..n], near, goNext, x);
    }
  }

  /** No friendly fire: a creature whose team every projectile shares
      leaves the pass with its stats untouched. */
  lemma {:induction false} CollisionPassSparesTeam(e: Effects, shots: seq<(Entity, Projectile)>, targets: seq<Entity>,
                                                   near: (Entity, Entity) -> bool, goNext: GameInfo -> bool, x: Entity)
    requires forall i :: 0 <= i < |targets| ==> targets[i] in e.stats
    requires x in e.stats && forall j :: 0 <= j < |shots| ==> shots[j].1.team == e.stats[x].team
    ensures CollisionPass(e, shots, targets, near, goNext).stats[x] == e.stats[x]
    decreases |shots|
  {
    if shots != [] {
      var n := |shots| - 1;
      CollisionPassSparesTeam(e, shots[..n], targets, near, goNext, x);
      TargetPassSparesTeam(CollisionPass(e, shots[..n], targets, near, goNext), shots[n], targets, near, goNext, x);
    }
  }

  /** A command already queued stays queued through a projectile's pass. */
  lemma TargetPassKeeps(e: Effects, shot: (Entity, Projectile), targets: seq<Entity>,
                        near: (Entity, Entity) -> bool, goNext: GameInfo -> bool, c: Command)
    requires forall k :: 0 <= k < |targets| ==> targets[k] in e.stats
    requires c in e.cmds
    ensures c in TargetPass(e, shot, targets, near, goNext).cmds
  {
    TargetPassGrows(e, shot, targets, near, goNext);
    StaysQueued(e.cmds, TargetPass(e, shot, targets, near, goNext).cmds, c);
  }

  lemma {:induction false} TargetPassDespawnsShot(e: Effects, shot: (Entity, Projectile), targets: seq<Entity>,
                                                  near: (Entity, Entity) -> bool, goNext: GameInfo -> bool, i: nat)
    requires forall k :: 0 <= k < |targets| ==> targets[k] in e.stats
    requires i < |targets| && shot.1.team != e.stats[targets[i]].team && near(shot.0, targets[i])
    ensures Despawn(shot.0) in TargetPass(e, shot, targets, near, goNext).cmds
    decreases |targets|
  {
    var n := |targets| - 1;
    var mid := TargetPass(e, shot, targets[..n], near, goNext);
    TargetPassGrows(e, shot, targets[..n], near, goNext);
    HitGrows(mid, shot, targets[n], near, goNext);
    if i < n {
      TargetPassDespawnsShot(e, shot, targets[..n], near, goNext, i);
      StaysQueued(mid.cmds, Hit(mid, shot, targets[n], near, goNext).cmds, Despawn(shot.0));
    } else {
      HitConnects(mid, shot, targets[n], near, goNext);
    }
  }

  /** The collision pass never changes a creature's team. */
  lemma CollisionPassKeepsTeam(e: Effects, shots: seq<(Entity, Projectile)>, targets: seq<Entity>,
                               near: (Entity, Entity) -> bool, goNext: GameInfo -> bool, x: Entity)
    requires forall k :: 0 <= k < |targets| ==> targets[k] in e.stats
    requires x in e.stats
    ensures x in CollisionPass(e, shots, targets, near, goNext).stats
    ensures CollisionPass(e, shots, targets, near, goNext).stats[x].team == e.stats[x].team
  {
    CollisionPassGrows(e, shots, targets, near, goNext);
  }

  /** Every (projectile, creature) pair of different teams within range
      queues the projectile's despawn. */
  lemma {:induction false} CollisionPassDespawnsShot(e: Effects, shots: seq<(Entity, Projectile)>, targets: seq<Entity>,
                                                     near: (Entity, Entity) -> bool, goNext: GameInfo -> bool, j: nat, i: nat)
    requires forall k :: 0 <= k < |targets| ==> targets[k] in e.stats
    requires j < |shots| && i < |targets|
    requires shots[j].1.team != e.stats[targets[i]].team && near(shots[j].0, targets[i])
    ensures Despawn(shots[j].0) in CollisionPass(e, shots, targets, near, goNext).cmds
    decreases |shots|
  {
    var n := |shots| - 1;
    var mid := CollisionPass(e, shots[..n], targets, near, goNext);
    assert CollisionPass(e, shots, targets, near, goNext) == TargetPass(mid, shots[n], targets, near, goNext);
    if j < n {
      assert shots[..n][j] == shots[j];
      CollisionPassDespawnsShot(e, shots[..n], targets, near, goNext, j, i);
      TargetPassKeeps(mid, shots[n], targets, near, goNext, Despawn(shots[j].0));
    } else {
      CollisionPassKeepsTeam(e, shots[..n], targets, near, goNext, targets[i]);
      TargetPassDespawnsShot(mid, shots[n], targets, near, goNext, i);
    }
  }

  /** With no projectile in range of a creature of another team, the
      collision pass changes nothing and queues nothing. */
  lemma {:induction false} TargetPassOutOfRange(e: Effects, shot: (Entity, Projectile), targets: seq<Entity>,
                                                near: (Entity, Entity) -> bool, goNext: GameInfo -> bool)
    requires forall i :: 0 <= i < |targets| ==> targets[i] in e.stats
    requires forall i :: 0 <= i < |targets| ==> shot.1.team == e.stats[targets[i]].team || !near(shot.0, targets[i])
    ensures TargetPass(e, shot, targets, near, goNext) == e
    decreases |targets|
  {
    if targets != [] {
      TargetPassOutOfRange(e, shot, targets[..|targets| - 1], near, goNext);
    }
  }

  lemma {:induction false} CollisionPassOutOfRange(e: Effects, shots: seq<(Entity, Projectile)>, targets: seq<Entity>,
                                                   near: (Entity, Entity) -> bool, goNext: GameInfo -> bool)
    requires forall i :: 0 <= i < |targets| ==> targets[i] in e.stats
    requires forall j, i :: 0 <= j < |shots| && 0 <= i < |targets| ==>
      shots[j].1.team == e.stats[targets[i]].team || !near(shots[j].0, targets[i])
    ensures CollisionPass(e, shots, targets, near, goNext) == e
    decreases |shots|
  {
    if shots != [] {
      var n := |shots| - 1;
      CollisionPassOutOfRange(e, shots[..n], targets, near, goNext);
      TargetPassOutOfRange(e, shots[n], targets, near, goNext);
    }
  }

  /** The total damage that the projectiles among `shots` of a team other
      than `team` and in range of creature `x` deal to it. */
  function EnemyDamage(shots: seq<(Entity, Projectile)>, x: Entity, team: Team, near: (Entity, Entity) -> bool): int
    decreases |shots|
  {
    if shots == [] then 0
    else
      var n := |shots| - 1;
      var s := shots[n];
      EnemyDamage(shots[..n], x, team, near) + if s.1.team != team && near(s.0, x) then s.1.damage else 0
  }

  lemma {:induction false} TargetPassHp(e: Effects, shot: (Entity, Projectile), targets: seq<Entity>,
                                        near: (Entity, Entity) -> bool, goNext: GameInfo -> bool, x: Entity)
    requires forall i :: 0 <= i < |targets| ==> targets[i] in e.stats
    requires forall i, j :: 0 <= i < j < |targets| ==> targets[i] != targets[j]
    requires x in e.stats
    ensures TargetPass(e, shot, targets, near, goNext).stats[x].hp ==
      e.stats[x].hp - if x in targets && shot.1.team != e.stats[x].team && near(shot.0, x) then shot.1.damage else 0
    decreases |targets|
  {
    if targets != [] {
      var n := |targets| - 1;
      TargetPassHp(e, shot, targets[..n], near, goNext, x);
      TargetPassGrows(e, shot, targets[..n], near, goNext);
      assert x in targets <==> x in targets[..n] || x == targets[n];
    }
  }

  /** Every creature of the query (each listed once) ends the pass with its
      hp lowered by exactly the damage of the enemy projectiles in its range,
      and a creature outside the query keeps its hp. */
  lemma {:induction false} CollisionPassHp(e: Effects, shots: seq<(Entity, Projectile)>, targets: seq<Entity>,
                                           near: (Entity, Entity) -> bool, goNext: GameInfo -> bool, x: Entity)
    requires forall i :: 0 <= i < |targets| ==> targets[i] in e.stats
    requires forall i, j :: 0 <= i < j < |targets| ==> targets[i] != targets[j]
    requires x in e.stats
    ensures CollisionPass(e, shots, targets, near, goNext).stats[x].hp ==
      e.stats[x].hp - if x in targets then EnemyDamage(shots, x, e.stats[x].team, near) else 0
    decreases |shots|
  {
    if shots != [] {
      var n := |shots| - 1;
      var mid := CollisionPass(e, shots[..n], targets, near, goNext);
      CollisionPassHp(e, shots[..n], targets, near, goNext, x);
      CollisionPassGrows(e, shots[..n], targets, near, goNext);
      TargetPassHp(mid, shots[n], targets, near, goNext, x);
    }
  }

  /** Creatures keep their entries and teams, and their hp never rises. */
  ghost predicate Wears(e: Effects, r: Effects) {
    r.stats.Keys == e.stats.Keys &&
    forall x :: x in e.stats ==> r.stats[x].team == e.stats[x].team && r.stats[x].hp <= e.stats[x].hp
  }

  lemma {:induction false} TargetPassWears(e: Effects, shot: (Entity, Projectile), targets: seq<Entity>,
                                           near: (Entity, Entity) -> bool, goNext: GameInfo -> bool)
    requires forall i :: 0 <= i < |targets| ==> targets[i] in e.stats
    requires shot.1.damage >= 0
    ensures Wears(e, TargetPass(e, shot, targets, near, goNext))
    decreases |targets|
  {
    if targets != [] {
      TargetPassWears(e, shot, targets[..|targets| - 1], near, goNext);
    }
  }

  /** Why a collision pass queues a despawn: a projectile met a creature of
      another team in range, or a creature that is not a player is at zero
      hp or below. */
  ghost predicate Explained(c: Command, r: Effects, shots: seq<(Entity, Projectile)>, targets: seq<Entity>,
                            near: (Entity, Entity) -> bool) {
    (exists s, x :: s in shots && x in targets && x in r.stats && c == Despawn(s.0) &&
       s.1.team != r.stats[x].team && near(s.0, x)) ||
    (exists x :: x in targets && x in r.stats && c == Despawn(x) &&
       r.stats[x].team != Players && r.stats[x].hp <= 0)
  }

  /** Every command queued after those of `e` is explained. */
  ghost predicate AllExplained(e: Effects, r: Effects, shots: seq<(Entity, Projectile)>, targets: seq<Entity>,
                               near: (Entity, Entity) -> bool) {
    forall k :: |e.cmds| <= k < |r.cmds| ==> Explained(r.cmds[k], r, shots, targets, near)
  }

  lemma ExplainedLift(c: Command, a: Effects, b: Effects, shotsA: seq<(Entity, Projectile)>, shotsB: seq<(Entity, Projectile)>,
                      targetsA: seq<Entity>, targetsB: seq<Entity>, near: (Entity, Entity) -> bool)
    requires Explained(c, a, shotsA, targetsA, near) && Wears(a, b)
    requires forall s :: s in shotsA ==> s in shotsB
    requires forall x :: x in targetsA ==> x in targetsB
    ensures Explained(c, b, shotsB, targetsB, near)
  {
    if exists s, x :: s in shotsA && x in targetsA && x in a.stats && c == Despawn(s.0) &&
         s.1.team != a.stats[x].team && near(s.0, x) {
      var s, x :| s in shotsA && x in targetsA && x in a.stats && c == Despawn(s.0) &&
        s.1.team != a.stats[x].team && near(s.0, x);
      assert x in b.stats && b.stats[x].team == a.stats[x].team;
    } else {
      var x :| x in targetsA && x in a.stats && c == Despawn(x) && a.stats[x].team != Players && a.stats[x].hp <= 0;
      assert x in b.stats && b.stats[x].team == a.stats[x].team && b.stats[x].hp <= a.stats[x].hp;
    }
  }

  lemma HitExplained(e: Effects, shot: (Entity, Projectile), target: Entity,
                     near: (Entity, Entity) -> bool, goNext: GameInfo -> bool)
    requires target in e.stats
    ensures var r := Hit(e, shot, target, near, goNext);
      |e.cmds| <= |r.cmds| && r.cmds[..|e.cmds|] == e.cmds &&
      AllExplained(e, r, [shot], [target], near)
  {
    var r := Hit(e, shot, target, near, goNext);
    HitGrows(e, shot, target, near, goNext);
    if r != e {
      HitConnects(e, shot, target, near, goNext);
      assert Explained(Despawn(shot.0), r, [shot], [target], near) by {
        assert shot in [shot] && target in [target];
      }
      if r.cmds != e.cmds + [Despawn(shot.0)] {
        assert Explained(Despawn(target), r, [shot], [target], near) by {
          assert target in [target];
        }
      }
    }
  }

  lemma {:induction false} TargetPassExplained(e: Effects, shot: (Entity, Projectile), targets: seq<Entity>,
                                               near: (Entity, Entity) -> bool, goNext: GameInfo -> bool)
    requires forall i :: 0 <= i < |targets| ==> targets[i] in e.stats
    requires shot.1.damage >= 0
    ensures var r := TargetPass(e, shot, targets, near, goNext);
      AllExplained(e, r, [shot], targets, near)
    decreases |targets|
  {
    if targets != [] {
      var n := |targets| - 1;
      var mid := TargetPass(e, shot, targets[..n], near, goNext);
      var r := Hit(mid, shot, targets[n], near, goNext);
      TargetPassExplained(e, shot, targets[..n], near, goNext);
      assert Wears(mid, r);
      HitExplained(mid, shot, targets[n], near, goNext);
      forall k | |e.cmds| <= k < |r.cmds|
        ensures Explained(r.cmds[k], r, [shot], targets, near)
      {
        if k < |mid.cmds| {
          assert r.cmds[k] == mid.cmds[k];
          ExplainedLift(mid.cmds[k], mid, r, [shot], [shot], targets[..n], targets, near);
        } else {
          ExplainedLift(r.cmds[k], r, r, [shot], [shot], [targets[n]], targets, near);
        }
      }
    }
  }

  /** The converse of `CollisionPassDespawnsShot`: every command the pass
      queues despawns a projectile that met a creature of another team in
      range, or a creature that is not a player and ends the pass at zero hp
      or below. Projectile damage is never negative, as `MakeProjectile`
      guarantees. */
  lemma {:induction false} CollisionPassExplained(e: Effects, shots: seq<(Entity, Projectile)>, targets: seq<Entity>,
                                                  near: (Entity, Entity) -> bool, goNext: GameInfo -> bool)
    requires forall i :: 0 <= i < |targets| ==> targets[i] in e.stats
    requires forall j :: 0 <= j < |shots| ==> shots[j].1.damage >= 0
    ensures var r := CollisionPass(e, shots, targets, near, goNext);
      AllExplained(e, r, shots, targets, near)
    decreases |shots|
  {
    if shots != [] {
      var n := |shots| - 1;
      var mid := CollisionPass(e, shots[..n], targets, near, goNext);
      var r := TargetPass(mid, shots[n], targets, near, goNext);
      CollisionPassExplained(e, shots[..n], targets, near, goNext);
      CollisionPassGrows(e, shots[..n], targets, near, goNext);
      TargetPassGrows(mid, shots[n], targets, near, goNext);
      TargetPassWears(mid, shots[n], targets, near, goNext);
      TargetPassExplained(mid, shots[n], targets, near, goNext);
      forall k | |e.cmds| <= k < |r.cmds|
        ensures Explained(r.cmds[k], r, shots, targets, near)
      {
        if k < |mid.cmds| {
          assert r.cmds[k] == mid.cmds[k];
          ExplainedLift(mid.cmds[k], mid, r, shots[..n], shots, targets, targets, near);
        } else {
          ExplainedLift(r.cmds[k], r, r, [shots[n]], shots, targets, targets, near);
        }
      }
    }
  }

  /** Deferred despawns, first consequence: one projectile in range of two
      monsters hurts both, killing the first, and its despawn is queued once
      per hit. */
  lemma SpreadShotExample(e: Effects, near: (Entity, Entity) -> bool, goNext: GameInfo -> bool)
    requires forall a, b :: near(a, b)
    requires forall g :: !goNext(g)
    requires e.stats.Keys == {1, 2} && e.info == DefaultInfo && e.next == None && e.cmds == []
    requires e.stats[1] == CreatureStats(Monsters, 1, 5) && e.stats[2] == CreatureStats(Monsters, 5, 5)
    ensures var r := CollisionPass(e, [(10, Projectile(Players, 3))], [1, 2], near, goNext);
      r.stats[1].hp == -2 && r.stats[2].hp == 2 && r.info.score == 10 &&
      r.cmds == [Despawn(1), Despawn(10), Despawn(10)]
  {
    var shot: (Entity, Projectile) := (10, Projectile(Players, 3));
    var ts: seq<Entity> := [1, 2];
    var none: seq<(Entity, Projectile)> := [];
    assert [shot][..0] == none;
    assert ts[..1] == [1] && ts[..1][..0] == [];
    assert near(10, 1) && near(10, 2);
    var a := Hit(e, shot, 1, near, goNext);
    assert !goNext(a.info);
    assert a.stats[1].hp == -2 && a.info.score == 10 && a.cmds == [Despawn(1), Despawn(10)];
    assert TargetPass(e, shot, ts, near, goNext) == Hit(a, shot, 2, near, goNext);
  }

  /** Two projectiles are two passes, one after the other. */
  lemma TwoShots(e: Effects, first: (Entity, Projectile), second: (Entity, Projectile), targets: seq<Entity>,
                 near: (Entity, Entity) -> bool, goNext: GameInfo -> bool)
    requires forall k :: 0 <= k < |targets| ==> targets[k] in e.stats
    ensures CollisionPass(e, [first, second], targets, near, goNext)
         == TargetPass(TargetPass(e, first, targets, near, goNext), second, targets, near, goNext)
  {
    var shots: seq<(Entity, Projectile)> := [first, second];
    var none: seq<(Entity, Projectile)> := [];
    assert shots[..1] == [first] && [first][..0] == none;
    assert CollisionPass(e, [first], targets, near, goNext) == TargetPass(e, first, targets, near, goNext);
  }

  /** Deferred despawns, second consequence: a monster killed by one
      projectile is still there for the next one in the same pass, which
      hits it again and scores for it a second time. */
  lemma DeadTargetScoredAgainExample(e: Effects, near: (Entity, Entity) -> bool, goNext: GameInfo -> bool)
    requires forall a, b :: near(a, b)
    requires forall g :: !goNext(g)
    requires e.stats.Keys == {1} && e.info == DefaultInfo && e.next == None && e.cmds == []
    requires e.stats[1] == CreatureStats(Monsters, 1, 5)
    ensures var r := CollisionPass(e, [(10, Projectile(Players, 3)), (11, Projectile(Players, 3))], [1], near, goNext);
      r.stats[1].hp == -5 && r.info.score == 20 &&
      r.cmds == [Despawn(1), Despawn(10), Despawn(1), Despawn(11)]
  {
    var s10: (Entity, Projectile), s11: (Entity, Projectile) := (10, Projectile(Players, 3)), (11, Projectile(Players, 3));
    var ts: seq<Entity> := [1];
    assert ts[..0] == [];
    TwoShots(e, s10, s11, ts, near, goNext);
    assert near(10, 1) && near(11, 1);
    var a := Hit(e, s10, 1, near, goNext);
    assert !goNext(a.info);
    assert a.stats[1].hp == -2 && a.info.score == 10 && a.cmds == [Despawn(1), Despawn(10)];
    assert TargetPass(e, s10, ts, near, goNext) == a;
    var b := Hit(a, s11, 1, near, goNext);
    assert !goNext(b.info);
    assert TargetPass(a, s11, ts, near, goNext) == b;
  }
}
