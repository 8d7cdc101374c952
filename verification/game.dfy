/** Game.java without drawing, sound, threads and the keyboard listener:
    the per-frame update (invulnerability, bullet spawning from hit circles
    and from the slider schedule, bullet movement and collision, player
    movement), map loading and game over. The game's private nested bullet
    class has the same fields and the same `updateAndCheck` as Bullet.java,
    so both are the `Bullets.Bullet` datatype here. */
module Game {
  import opened JavaLang
  import opened OsuFormat
  import opened Bullets
  import GameMap
  import SliderLaser

  const InvDuration: int := 3000
  const PlayerSize: int := 40
  const BulletSize: int := 12
  const MaxLives: int := 5

  /** The values Game.java reads from the configuration once, at start-up. */
  datatype Settings = Settings(width: int, height: int, playerSpeed: int, bulletSpeed: real,
                               slowSpeed: int, hitboxRadius: int)

  /** The movement keys currently held down. */
  datatype Keys = Keys(left: bool, right: bool, up: bool, down: bool, slow: bool)

  datatype GameState = GameState(
    mapTitle: string,
    approachTime: real, sliderMultiplier: real, beatLength: real,
    running: bool, paused: bool,
    playerX: int, playerY: int, lives: int,
    invulnerable: bool, lastDamageTime: int,
    hitObjects: seq<HitObject>, spawnIndex: nat,
    lasers: seq<SliderLaser.Laser>,
    spawns: seq<GameMap.ScheduledSpawn>, scheduleIndex: nat,
    bullets: seq<Bullet>)

  /** Java's `n / 2` on an int: the quotient is rounded toward zero. */
  function HalfInt(n: int): (h: int)
    ensures n >= 0 ==> 0 <= n - 2 * h <= 1
    ensures n < 0 ==> -1 <= n - 2 * h <= 0
  {
    if n >= 0 then n / 2 else -((-n) / 2)
  }

  /** resetPlayer: bottom centre of the screen, full lives. */
  function ResetPlayer(s: GameState, cfg: Settings): (r: GameState)
    ensures r == s.(playerX := r.playerX, playerY := r.playerY, lives := MaxLives)
    ensures cfg.width >= 0 ==> r.playerX + PlayerSize / 2 == HalfInt(cfg.width)
    ensures cfg.width >= 0 ==> 0 <= cfg.width - (2 * r.playerX + PlayerSize) <= 1
    ensures r.playerY + 60 == cfg.height
  {
    s.(playerX := HalfInt(cfg.width) - PlayerSize / 2, playerY := cfg.height - 60, lives := MaxLives)
  }

  /** The centre of the player's square, `playerX + playerSize/2.0`. */
  function CentreX(playerX: int): real { playerX as real + PlayerSize as real / 2.0 }
  function CentreY(playerY: int): real { playerY as real + PlayerSize as real / 2.0 }

  /** spawnBullet: a bullet dropped from x = u * width just above the screen,
      aimed at the player's centre so that at speed 1 it arrives after
      `approachTime` ticks; u is the `Math.random()` draw. */
  function CircleBullet(cfg: Settings, playerX: int, playerY: int, approachTime: real, u: real): (b: Bullet)
    requires approachTime != 0.0
    ensures b.size == BulletSize && b.x == u * cfg.width as real && b.y == -(BulletSize as real)
    ensures b.dx * approachTime == (CentreX(playerX) - b.x) * cfg.bulletSpeed
    ensures b.dy * approachTime == (CentreY(playerY) - b.y) * cfg.bulletSpeed
  {
    var x := u * cfg.width as real;
    var y := -(BulletSize as real);
    Bullet(x, y, Velocity(x, CentreX(playerX), cfg.bulletSpeed, approachTime),
           Velocity(y, CentreY(playerY), cfg.bulletSpeed, approachTime), BulletSize)
  }

  /** spawnSliderBullet: a bullet from a slider control point, aimed at the
      player's centre. */
  function SliderBullet(cfg: Settings, playerX: int, playerY: int, approachTime: real, sx: int, sy: int): (b: Bullet)
    requires approachTime != 0.0
    ensures b.size == BulletSize && b.x == sx as real && b.y == sy as real
    ensures b.dx * approachTime == (CentreX(playerX) - b.x) * cfg.bulletSpeed
    ensures b.dy * approachTime == (CentreY(playerY) - b.y) * cfg.bulletSpeed
  {
    Bullet(sx as real, sy as real, Velocity(sx as real, CentreX(playerX), cfg.bulletSpeed, approachTime),
           Velocity(sy as real, CentreY(playerY), cfg.bulletSpeed, approachTime), BulletSize)
  }

  /** A hit circle's bullet is due once the clock reaches its time minus the
      approach time (the comparison is done in doubles). */
  predicate CircleDue(h: HitObject, approachTime: real, elapsed: int) {
    h.time as real - approachTime <= elapsed as real
  }

  /** Where the first loop of update stops: it walks the hit circles in
      file order from the cursor and halts at the first that is not due. */
  function CirclesEnd(hs: seq<HitObject>, from: nat, approachTime: real, elapsed: int): (e: nat)
    ensures from <= e
    ensures e > from ==> e <= |hs|
    ensures e < |hs| ==> !CircleDue(hs[e], approachTime, elapsed)
    ensures forall i :: from <= i < e ==> CircleDue(hs[i], approachTime, elapsed)
    decreases |hs| - from
  {
    if from < |hs| && CircleDue(hs[from], approachTime, elapsed) then CirclesEnd(hs, from + 1, approachTime, elapsed)
    else from
  }

  /** All bullets carry the size the game spawns them with. */
  predicate StandardSize(bs: seq<Bullet>) {
    forall i :: 0 <= i < |bs| ==> bs[i].size == BulletSize
  }

  /** The first loop of update: one bullet per due hit circle, appended in
      file order; the i-th circle's bullet uses the draw random(i). The player
      does not move during the loop, so all are aimed at the same point. */
  function SpawnCircles(s: GameState, cfg: Settings, elapsed: int, random: nat -> real): (r: GameState)
    requires s.approachTime != 0.0
    ensures r == s.(spawnIndex := r.spawnIndex, bullets := r.bullets)
    ensures r.spawnIndex == CirclesEnd(s.hitObjects, s.spawnIndex, s.approachTime, elapsed)
    ensures |r.bullets| == |s.bullets| + (r.spawnIndex - s.spawnIndex)
    ensures r.bullets[..|s.bullets|] == s.bullets
    ensures forall j :: |s.bullets| <= j < |r.bullets| ==>
              r.bullets[j] == CircleBullet(cfg, s.playerX, s.playerY, s.approachTime, random(s.spawnIndex + (j - |s.bullets|)))
    ensures StandardSize(s.bullets) ==> StandardSize(r.bullets)
  {
    var e := CirclesEnd(s.hitObjects, s.spawnIndex, s.approachTime, elapsed);
    var added := seq(e - s.spawnIndex, j requires 0 <= j =>
                       CircleBullet(cfg, s.playerX, s.playerY, s.approachTime, random(s.spawnIndex + j)));
    s.(spawnIndex := e, bullets := s.bullets + added)
  }

  predicate TimeOrdered(hs: seq<HitObject>) {
    forall i, j :: 0 <= i <= j < |hs| ==> hs[i].time <= hs[j].time
  }

  /** When the hit circles are in time order, a circle at or after the
      cursor gets its bullet in this frame exactly when it is due. */
  lemma CirclesDueExactly(s: GameState, cfg: Settings, elapsed: int, random: nat -> real, i: int)
    requires s.approachTime != 0.0 && TimeOrdered(s.hitObjects)
    requires s.spawnIndex <= i < |s.hitObjects|
    ensures i < SpawnCircles(s, cfg, elapsed, random).spawnIndex <==> CircleDue(s.hitObjects[i], s.approachTime, elapsed)
  {
    var r := SpawnCircles(s, cfg, elapsed, random);
    if r.spawnIndex <= i {
      assert s.hitObjects[r.spawnIndex].time <= s.hitObjects[i].time;
    }
  }

  /** Where the second loop of update stops: it walks the slider schedule
      from the cursor and halts at the first point whose offset the clock has
      not reached. */
  function ScheduleEnd(ss: seq<GameMap.ScheduledSpawn>, from: nat, elapsed: int): (e: nat)
    ensures from <= e
    ensures e > from ==> e <= |ss|
    ensures e < |ss| ==> elapsed < ss[e].offset
    ensures forall i :: from <= i < e ==> ss[i].offset <= elapsed
    decreases |ss| - from
  {
    if from < |ss| && elapsed >= ss[from].offset then ScheduleEnd(ss, from + 1, elapsed) else from
  }

  /** The second loop of update: one bullet per reached schedule entry, from
      that entry's control point, appended in schedule order. */
  function SpawnScheduled(s: GameState, cfg: Settings, elapsed: int): (r: GameState)
    requires s.approachTime != 0.0
    ensures r == s.(scheduleIndex := r.scheduleIndex, bullets := r.bullets)
    ensures r.scheduleIndex == ScheduleEnd(s.spawns, s.scheduleIndex, elapsed)
    ensures |r.bullets| == |s.bullets| + (r.scheduleIndex - s.scheduleIndex)
    ensures r.bullets[..|s.bullets|] == s.bullets
    ensures forall j :: |s.bullets| <= j < |r.bullets| ==>
              var ss := s.spawns[s.scheduleIndex + (j - |s.bullets|)];
              r.bullets[j] == SliderBullet(cfg, s.playerX, s.playerY, s.approachTime, ss.x, ss.y)
    ensures StandardSize(s.bullets) ==> StandardSize(r.bullets)
  {
    var e := ScheduleEnd(s.spawns, s.scheduleIndex, elapsed);
    var added := seq(e - s.scheduleIndex, j requires 0 <= j < e - s.scheduleIndex =>
                       SliderBullet(cfg, s.playerX, s.playerY, s.approachTime,
                                    s.spawns[s.scheduleIndex + j].x, s.spawns[s.scheduleIndex + j].y));
    s.(scheduleIndex := e, bullets := s.bullets + added)
  }

  /** The schedule is sorted by offset, so a scheduled point at or after the
      cursor fires in this frame exactly when its offset has been reached. */
  lemma ScheduleDueExactly(s: GameState, cfg: Settings, elapsed: int, i: int)
    requires s.approachTime != 0.0 && GameMap.Sorted(s.spawns)
    requires s.scheduleIndex <= i < |s.spawns|
    ensures i < SpawnScheduled(s, cfg, elapsed).scheduleIndex <==> s.spawns[i].offset <= elapsed
  {
    var r := SpawnScheduled(s, cfg, elapsed);
    if r.scheduleIndex <= i {
      assert s.spawns[r.scheduleIndex].offset <= s.spawns[i].offset;
    }
  }

  /** The collision test: centre distance at most the sum of the bullet's
      radius and the player's hitbox radius. */
  predicate Touches(b: Bullet, cx: real, cy: real, hitboxRadius: int) {
    var dx := b.x - cx;
    var dy := b.y - cy;
    var rsum := b.size as real / 2.0 + hitboxRadius as real;
    dx * dx + dy * dy <= rsum * rsum
  }

  /** A moved bullet that stays on screen and touches the player. */
  predicate Lethal(b: Bullet, cfg: Settings, cx: real, cy: real) {
    var m := Moved(b);
    !OffScreen(m, cfg.width, cfg.height) && Touches(m, cx, cy, cfg.hitboxRadius)
  }

  /** Reference definition: every bullet moved one step, those that left the
      screen dropped, the order kept. */
  function Survivors(bs: seq<Bullet>, cfg: Settings): (r: seq<Bullet>)
    ensures |r| <= |bs|
  {
    if bs == [] then [] else Kept(bs[0], cfg) + Survivors(bs[1..], cfg)
  }

  /** One bullet moved, or nothing if that took it off the screen. */
  function Kept(b: Bullet, cfg: Settings): seq<Bullet> {
    var m := Moved(b);
    if OffScreen(m, cfg.width, cfg.height) then [] else [m]
  }

  /** The outcome of the bullet loop: the list it leaves, whether the player
      was hit, and whether that hit ended the game. */
  datatype Sweep = Sweep(bullets: seq<Bullet>, hit: bool, over: bool)

  /** The third loop of update, over the bullets in order: move each one and
      drop it if it left the screen; otherwise, unless the player is
      invulnerable, drop it if it touches the player, who loses a life and
      becomes invulnerable. If that was the last life the loop is left at
      once, so the bullets after it are neither moved nor checked. */
  function SweepBullets(bs: seq<Bullet>, cfg: Settings, cx: real, cy: real, invulnerable: bool, lives: int): (r: Sweep)
    ensures r.hit ==> !invulnerable
    ensures r.over <==> r.hit && lives <= 1
    ensures !r.over ==> |r.bullets| <= |bs|
    ensures r.over ==> |r.bullets| < |bs|
    decreases |bs|
  {
    if bs == [] then Sweep([], false, false)
    else
      var m := Moved(bs[0]);
      if OffScreen(m, cfg.width, cfg.height) then
        SweepBullets(bs[1..], cfg, cx, cy, invulnerable, lives)
      else if !invulnerable && Touches(m, cx, cy, cfg.hitboxRadius) then
        if lives - 1 <= 0 then Sweep(bs[1..], true, true)
        else
          var rest := SweepBullets(bs[1..], cfg, cx, cy, true, lives - 1);
          Sweep(rest.bullets, true, false)
      else
        var rest := SweepBullets(bs[1..], cfg, cx, cy, invulnerable, lives);
        rest.(bullets := [m] + rest.bullets)
  }

  /** The player is hit in a frame exactly when they are not invulnerable
      and some bullet, once moved, is on screen and touching them. */
  lemma {:induction false} HitIffLethal(bs: seq<Bullet>, cfg: Settings, cx: real, cy: real, invulnerable: bool, lives: int)
    ensures SweepBullets(bs, cfg, cx, cy, invulnerable, lives).hit <==>
            !invulnerable && exists i :: 0 <= i < |bs| && Lethal(bs[i], cfg, cx, cy)
    decreases |bs|
  {
    if bs != [] {
      HitIffLethal(bs[1..], cfg, cx, cy, invulnerable, lives);
      if !invulnerable && !Lethal(bs[0], cfg, cx, cy) {
        if exists i :: 0 <= i < |bs| && Lethal(bs[i], cfg, cx, cy) {
          var i :| 0 <= i < |bs| && Lethal(bs[i], cfg, cx, cy);
          assert Lethal(bs[1..][i - 1], cfg, cx, cy);
        }
      }
    }
  }

  /** A frame with no hit leaves exactly the survivors; in particular an
      invulnerable player never removes a bullet by touching it. */
  lemma {:induction false} NoHitKeepsSurvivors(bs: seq<Bullet>, cfg: Settings, cx: real, cy: real, invulnerable: bool, lives: int)
    ensures !SweepBullets(bs, cfg, cx, cy, invulnerable, lives).hit ==>
            SweepBullets(bs, cfg, cx, cy, invulnerable, lives).bullets == Survivors(bs, cfg)
    decreases |bs|
  {
    if bs != [] {
      NoHitKeepsSurvivors(bs[1..], cfg, cx, cy, invulnerable, lives);
    }
  }

  /** A hit that does not end the game removes exactly one bullet besides
      those that left the screen. */
  lemma {:induction false} HitRemovesOne(bs: seq<Bullet>, cfg: Settings, cx: real, cy: real, invulnerable: bool, lives: int)
    ensures var r := SweepBullets(bs, cfg, cx, cy, invulnerable, lives);
            r.hit && !r.over ==> |r.bullets| + 1 == |Survivors(bs, cfg)|
    decreases |bs|
  {
    if bs != [] {
      var m := Moved(bs[0]);
      HitRemovesOne(bs[1..], cfg, cx, cy, invulnerable, lives);
      if !OffScreen(m, cfg.width, cfg.height) && !invulnerable && Touches(m, cx, cy, cfg.hitboxRadius) && lives - 1 > 0 {
        NoHitKeepsSurvivors(bs[1..], cfg, cx, cy, true, lives - 1);
      }
    }
  }

  /** A hit that ends the game leaves the loop at once: the bullets before
      the fatal one are the survivors of their part of the list, the fatal
      one is gone, and the rest stay where they were, unmoved. */
  lemma {:induction false} GameOverLeavesRest(bs: seq<Bullet>, cfg: Settings, cx: real, cy: real, invulnerable: bool, lives: int)
    ensures var r := SweepBullets(bs, cfg, cx, cy, invulnerable, lives);
            r.over ==> exists j :: 0 <= j < |bs| && Lethal(bs[j], cfg, cx, cy)
                                   && r.bullets == Survivors(bs[..j], cfg) + bs[j + 1..]
    decreases |bs|
  {
    var r := SweepBullets(bs, cfg, cx, cy, invulnerable, lives);
    if bs != [] && r.over {
      if !invulnerable && Lethal(bs[0], cfg, cx, cy) {
        assert r.bullets == Survivors(bs[..0], cfg) + bs[1..];
      } else {
        GameOverLeavesRest(bs[1..], cfg, cx, cy, invulnerable, lives);
        var k :| 0 <= k < |bs| - 1 && Lethal(bs[1..][k], cfg, cx, cy)
                 && SweepBullets(bs[1..], cfg, cx, cy, invulnerable, lives).bullets
                    == Survivors(bs[1..][..k], cfg) + bs[1..][k + 1..];
        OverPassesOver(bs, cfg, cx, cy, invulnerable, lives, k);
      }
    }
  }

  /** The induction step of GameOverLeavesRest: a first bullet that does not
      hit is either dropped or kept moved in front of the rest's outcome. */
  lemma OverPassesOver(bs: seq<Bullet>, cfg: Settings, cx: real, cy: real, invulnerable: bool, lives: int, k: int)
    requires 0 <= k < |bs| - 1 && (invulnerable || !Lethal(bs[0], cfg, cx, cy))
    requires SweepBullets(bs[1..], cfg, cx, cy, invulnerable, lives).bullets
             == Survivors(bs[1..][..k], cfg) + bs[1..][k + 1..]
    ensures SweepBullets(bs, cfg, cx, cy, invulnerable, lives).bullets == Survivors(bs[..k + 1], cfg) + bs[k + 2..]
  {
    var rest := SweepBullets(bs[1..], cfg, cx, cy, invulnerable, lives);
    assert SweepBullets(bs, cfg, cx, cy, invulnerable, lives).bullets == Kept(bs[0], cfg) + rest.bullets;
    assert bs[..k + 1][1..] == bs[1..][..k];
    assert Survivors(bs[..k + 1], cfg) == Kept(bs[0], cfg) + Survivors(bs[1..][..k], cfg);
    assert bs[k + 2..] == bs[1..][k + 1..];
    assert Kept(bs[0], cfg) + (Survivors(bs[1..][..k], cfg) + bs[k + 2..])
        == Kept(bs[0], cfg) + Survivors(bs[1..][..k], cfg) + bs[k + 2..];
  }

  /** One step along an axis: the decreasing key first, clamped at 0, then
      the increasing key, clamped at `limit`. */
  function MoveAxis(p: int, dec: bool, inc: bool, speed: int, limit: int): int {
    var a := if dec then (if p - speed > 0 then p - speed else 0) else p;
    if inc then (if a + speed < limit then a + speed else limit) else a
  }

  /** A non-negative speed keeps a position that starts within [0, limit]
      within it, moves it by at most the speed, in the direction of the key
      held, and two opposite keys cancel away from the edges. */
  lemma MoveAxisBounds(p: int, dec: bool, inc: bool, speed: int, limit: int)
    requires speed >= 0 && 0 <= p <= limit
    ensures var r := MoveAxis(p, dec, inc, speed, limit);
            && 0 <= r <= limit
            && p - speed <= r <= p + speed
            && (!dec && !inc ==> r == p)
            && (dec && !inc ==> r <= p && (r == 0 || r == p - speed))
            && (inc && !dec ==> r >= p && (r == limit || r == p + speed))
            && (dec && inc && speed <= p ==> r == p)
  {
  }

  /** Player movement at the slow speed while the slow key is held. */
  function Move(s: GameState, cfg: Settings, keys: Keys): (r: GameState)
    ensures r == s.(playerX := r.playerX, playerY := r.playerY)
  {
    var speed := if keys.slow then cfg.slowSpeed else cfg.playerSpeed;
    s.(playerX := MoveAxis(s.playerX, keys.left, keys.right, speed, cfg.width - PlayerSize),
       playerY := MoveAxis(s.playerY, keys.up, keys.down, speed, cfg.height - PlayerSize))
  }

  /** gameOver: the loop stops (the dialog that follows is not modelled). */
  function GameOver(s: GameState): (r: GameState)
    ensures !r.running && r == s.(running := false)
  {
    s.(running := false)
  }

  /** The invulnerability window runs out `InvDuration` ms after the last hit. */
  function ExpireInvulnerability(s: GameState, elapsed: int): (r: GameState)
    ensures r == s.(invulnerable := r.invulnerable)
    ensures r.invulnerable <==> s.invulnerable && elapsed - s.lastDamageTime < InvDuration
  {
    if s.invulnerable && elapsed - s.lastDamageTime >= InvDuration then s.(invulnerable := false) else s
  }

  /** The sweep's outcome written back into the state. */
  function ApplySweep(s: GameState, sw: Sweep, elapsed: int): (r: GameState)
  {
    var t := s.(bullets := sw.bullets);
    if sw.hit then t.(lives := s.lives - 1, invulnerable := true, lastDamageTime := elapsed) else t
  }

  /** One frame of update at clock `elapsed` with the keys held; random(i)
      is the `Math.random()` draw for the i-th hit circle's bullet. */
  function Update(s: GameState, cfg: Settings, keys: Keys, elapsed: int, random: nat -> real): (r: GameState)
    requires s.approachTime != 0.0
    ensures s.paused ==> r == s
    ensures r.hitObjects == s.hitObjects && r.spawns == s.spawns && r.lasers == s.lasers
    ensures r.spawnIndex >= s.spawnIndex && r.scheduleIndex >= s.scheduleIndex
    ensures r.lives == s.lives || (!s.paused && r.lives == s.lives - 1 && r.invulnerable && r.lastDamageTime == elapsed)
    ensures r.running ==> s.running
    ensures s.running && !r.running ==> r.lives <= 0
    ensures s.invulnerable && !r.invulnerable ==> elapsed - s.lastDamageTime >= InvDuration
    ensures !s.paused && r.lives < s.lives && r.lives <= 0 ==>
              !r.running && r.playerX == s.playerX && r.playerY == s.playerY
    ensures !s.paused && s.running && r.lives < s.lives ==> (r.running <==> r.lives > 0)
    ensures !s.paused ==> r.spawnIndex == CirclesEnd(s.hitObjects, s.spawnIndex, s.approachTime, elapsed)
                          && r.scheduleIndex == ScheduleEnd(s.spawns, s.scheduleIndex, elapsed)
  {
    if s.paused then s
    else
      var s1 := ExpireInvulnerability(s, elapsed);
      var s2 := SpawnCircles(s1, cfg, elapsed, random);
      var s3 := SpawnScheduled(s2, cfg, elapsed);
      var sw := SweepBullets(s3.bullets, cfg, CentreX(s3.playerX), CentreY(s3.playerY), s3.invulnerable, s3.lives);
      var s4 := ApplySweep(s3, sw, elapsed);
      if sw.over then GameOver(s4) else Move(s4, cfg, keys)
  }

  /** While the invulnerability window is still open no bullet costs a
      life and none is removed by touching the player. */
  lemma InvulnerableTakesNoDamage(s: GameState, cfg: Settings, keys: Keys, elapsed: int, random: nat -> real)
    requires s.approachTime != 0.0 && !s.paused
    requires s.invulnerable && elapsed - s.lastDamageTime < InvDuration
    ensures var r := Update(s, cfg, keys, elapsed, random);
            r.lives == s.lives && r.running == s.running && r.invulnerable
    ensures var s3 := SpawnScheduled(SpawnCircles(s, cfg, elapsed, random), cfg, elapsed);
            Update(s, cfg, keys, elapsed, random).bullets == Survivors(s3.bullets, cfg)
  {
    var s3 := SpawnScheduled(SpawnCircles(s, cfg, elapsed, random), cfg, elapsed);
    NoHitKeepsSurvivors(s3.bullets, cfg, CentreX(s3.playerX), CentreY(s3.playerY), true, s3.lives);
  }

  predicate SettingsOk(cfg: Settings) {
    cfg.width >= PlayerSize && cfg.height >= 60 && cfg.playerSpeed >= 0 && cfg.slowSpeed >= 0
  }

  /** The state invariant: cursors within their lists, the player on screen,
      lives at most the maximum and positive while the game runs, every
      bullet of the standard size. */
  predicate Valid(s: GameState, cfg: Settings) {
    && s.spawnIndex <= |s.hitObjects|
    && s.scheduleIndex <= |s.spawns|
    && 0 <= s.playerX <= cfg.width - PlayerSize
    && 0 <= s.playerY <= cfg.height - PlayerSize
    && s.lives <= MaxLives
    && (s.running ==> s.lives > 0)
    && GameMap.Sorted(s.spawns)
    && StandardSize(s.bullets)
  }

  /** Every bullet a sweep leaves was one of its input bullets, moved or not. */
  lemma {:induction false} SweepKeepsSize(bs: seq<Bullet>, cfg: Settings, cx: real, cy: real, invulnerable: bool, lives: int)
    requires StandardSize(bs)
    ensures StandardSize(SweepBullets(bs, cfg, cx, cy, invulnerable, lives).bullets)
    decreases |bs|
  {
    if bs != [] {
      SweepKeepsSize(bs[1..], cfg, cx, cy, invulnerable, lives);
      if !invulnerable && lives - 1 > 0 {
        SweepKeepsSize(bs[1..], cfg, cx, cy, true, lives - 1);
      }
    }
  }

  /** Player movement keeps the state invariant. */
  lemma MoveKeepsValid(s: GameState, cfg: Settings, keys: Keys)
    requires SettingsOk(cfg) && Valid(s, cfg)
    ensures Valid(Move(s, cfg, keys), cfg)
  {
    var speed := if keys.slow then cfg.slowSpeed else cfg.playerSpeed;
    MoveAxisBounds(s.playerX, keys.left, keys.right, speed, cfg.width - PlayerSize);
    MoveAxisBounds(s.playerY, keys.up, keys.down, speed, cfg.height - PlayerSize);
  }

  /** update preserves the state invariant. */
  lemma UpdateKeepsValid(s: GameState, cfg: Settings, keys: Keys, elapsed: int, random: nat -> real)
    requires s.approachTime != 0.0 && SettingsOk(cfg) && Valid(s, cfg)
    ensures Valid(Update(s, cfg, keys, elapsed, random), cfg)
  {
    if !s.paused {
      var s1 := ExpireInvulnerability(s, elapsed);
      var s2 := SpawnCircles(s1, cfg, elapsed, random);
      var s3 := SpawnScheduled(s2, cfg, elapsed);
      var cx, cy := CentreX(s3.playerX), CentreY(s3.playerY);
      SweepKeepsSize(s3.bullets, cfg, cx, cy, s3.invulnerable, s3.lives);
      var sw := SweepBullets(s3.bullets, cfg, cx, cy, s3.invulnerable, s3.lives);
      var s4 := ApplySweep(s3, sw, elapsed);
      if !sw.over {
        assert Valid(s4, cfg);
        MoveKeepsValid(s4, cfg, keys);
      }
    }
  }

  /** setMap: clear the previous map's state, put the player back, load the
      map and start the game. If loading throws, the exception propagates
      out of setMap: the fields the loader had already set stay set, the
      lasers and the schedule stay empty, and the game is not started. The
      pause flag is left as it was. */
  function SetMap(s: GameState, cfg: Settings, setName: string, osuFile: string, lines: seq<string>)
    : (r: (GameState, Option<Exception>))
    ensures r.1 == GameMap.ParseOsu(lines).1
    ensures var g := r.0;
            && g.mapTitle == setName + " | " + osuFile
            && !g.invulnerable && g.lastDamageTime == 0
            && g.spawnIndex == 0 && g.scheduleIndex == 0 && g.bullets == []
            && g.lives == MaxLives && g.paused == s.paused
            && (cfg.width >= 0 ==> g.playerX + PlayerSize / 2 == HalfInt(cfg.width))
            && g.playerY + 60 == cfg.height
            && g.hitObjects == GameMap.ParseOsu(lines).0.hitObjects
            && g.approachTime == GameMap.ParseOsu(lines).0.approachTime
            && g.sliderMultiplier == GameMap.ParseOsu(lines).0.sliderMultiplier
            && g.beatLength == GameMap.ParseOsu(lines).0.beatLength
            && g.lasers == GameMap.ParseOsu(lines).0.lasers
            && g.spawns == GameMap.ParseOsu(lines).0.spawns
            && GameMap.Sorted(g.spawns)
            && (r.1.None? ==> g.running)
            && (r.1.Some? ==> g.running == s.running && g.lasers == [] && g.spawns == [])
  {
    var cleared := s.(mapTitle := setName + " | " + osuFile, invulnerable := false, lastDamageTime := 0,
                      spawnIndex := 0, scheduleIndex := 0,
                      hitObjects := [], bullets := [], lasers := [], spawns := []);
    var placed := ResetPlayer(cleared, cfg);
    var loaded := GameMap.ParseOsu(lines);
    var ld := loaded.0;
    var g := placed.(approachTime := ld.approachTime, sliderMultiplier := ld.sliderMultiplier,
                     beatLength := ld.beatLength, hitObjects := ld.hitObjects,
                     lasers := ld.lasers, spawns := ld.spawns);
    if loaded.1.Some? then (g, loaded.1) else (g.(running := true), None)
  }

  /** A map that loads gives a valid, running game. */
  lemma SetMapValid(s: GameState, cfg: Settings, setName: string, osuFile: string, lines: seq<string>)
    requires SettingsOk(cfg)
    ensures Valid(SetMap(s, cfg, setName, osuFile, lines).0, cfg)
  {
    assert HalfInt(cfg.width) >= PlayerSize / 2;
  }
}
