/** Bullet.java: a pooled bullet whose velocity is fixed when it is
    (re)initialised, aimed so that at speed 1 it reaches its target after
    `approachTime` ticks, and which is dropped once it leaves the screen to
    the left, the right or the bottom. */
module Bullets {

  datatype Bullet = Bullet(x: real, y: real, dx: real, dy: real, size: int)

  /** `new Bullet(size)`: only the size is set; the doubles start at 0. */
  function New(size: int): (b: Bullet)
    ensures b.size == size
    ensures b.x == 0.0 && b.y == 0.0 && b.dx == 0.0 && b.dy == 0.0
  {
    Bullet(0.0, 0.0, 0.0, 0.0, size)
  }

  /** `(target - from) / approachTime * speed`: the per-tick step that
      covers `speed` times the distance in `approachTime` ticks. */
  function Velocity(from: real, target: real, speed: real, approachTime: real): (v: real)
    requires approachTime != 0.0
    ensures v * approachTime == (target - from) * speed
  {
    (target - from) / approachTime * speed
  }

  /** initAt: start at the spawn point, aimed at the target. */
  function InitAt(b: Bullet, spawnX: int, spawnY: int, targetX: real, targetY: real,
                  speed: real, approachTime: int): (r: Bullet)
    requires approachTime != 0
    ensures r.size == b.size
    ensures r.x == spawnX as real && r.y == spawnY as real
    ensures r.dx * approachTime as real == (targetX - spawnX as real) * speed
    ensures r.dy * approachTime as real == (targetY - spawnY as real) * speed
  {
    Bullet(spawnX as real, spawnY as real,
           Velocity(spawnX as real, targetX, speed, approachTime as real),
           Velocity(spawnY as real, targetY, speed, approachTime as real), b.size)
  }

  /** initRandom: start just above the top edge at x = u * screenWidth,
      where u is the generator's next double in [0, 1), aimed at the
      target. */
  function InitRandom(b: Bullet, screenWidth: int, targetX: real, targetY: real,
                      speed: real, approachTime: int, u: real): (r: Bullet)
    requires approachTime != 0 && 0.0 <= u < 1.0
    ensures r.size == b.size
    ensures r.y == -(b.size as real)
    ensures screenWidth > 0 ==> 0.0 <= r.x < screenWidth as real
    ensures screenWidth == 0 ==> r.x == 0.0
    ensures r.dx * approachTime as real == (targetX - r.x) * speed
    ensures r.dy * approachTime as real == (targetY - r.y) * speed
  {
    var x := u * screenWidth as real;
    var y := -b.size as real;
    assert screenWidth > 0 ==> x < screenWidth as real by {
      if screenWidth > 0 {
        assert screenWidth as real - x == (1.0 - u) * screenWidth as real;
      }
    }
    Bullet(x, y, Velocity(x, targetX, speed, approachTime as real), Velocity(y, targetY, speed, approachTime as real), b.size)
  }

  /** Off the screen by more than the bullet's size to the left, the right
      or below; there is no test against the top edge. */
  predicate OffScreen(b: Bullet, screenWidth: int, screenHeight: int) {
    b.y > (screenHeight + b.size) as real || b.x < -(b.size as real) || b.x > (screenWidth + b.size) as real
  }

  /** One tick of movement. */
  function Moved(b: Bullet): (r: Bullet)
    ensures r.dx == b.dx && r.dy == b.dy && r.size == b.size
    ensures r.x - b.x == b.dx && r.y - b.y == b.dy
  {
    b.(x := b.x + b.dx, y := b.y + b.dy)
  }

  /** updateAndCheck: move one step, then report whether the bullet is to
      be removed. */
  function UpdateAndCheck(b: Bullet, screenWidth: int, screenHeight: int): (r: (Bullet, bool))
    ensures r.0 == Moved(b)
    ensures r.1 <==> OffScreen(Moved(b), screenWidth, screenHeight)
  {
    var m := Moved(b);
    (m, OffScreen(m, screenWidth, screenHeight))
  }

  /** `k` calls of updateAndCheck. */
  function Advance(b: Bullet, k: nat): Bullet
    decreases k
  {
    if k == 0 then b else Advance(UpdateAndCheck(b, 0, 0).0, k - 1)
  }

  /** `v` added up `k` times. */
  function Sum(v: real, k: nat): real
    decreases k
  {
    if k == 0 then 0.0 else Sum(v, k - 1) + v
  }

  lemma {:induction false} SumIsProduct(v: real, k: nat)
    ensures Sum(v, k) == k as real * v
    decreases k
  {
    if k > 0 {
      SumIsProduct(v, k - 1);
      assert (k - 1) as real * v + v == k as real * v;
    }
  }

  /** After k ticks each coordinate has moved by its velocity k times;
      velocity and size never change. */
  lemma {:induction false} AdvanceSum(b: Bullet, k: nat)
    ensures Advance(b, k) == b.(x := b.x + Sum(b.dx, k), y := b.y + Sum(b.dy, k))
    decreases k
  {
    if k > 0 {
      var m := Moved(b);
      assert UpdateAndCheck(b, 0, 0).0 == m;
      AdvanceSum(m, k - 1);
    }
  }

  /** After k ticks the bullet has moved k velocity steps. */
  lemma AdvancePosition(b: Bullet, k: nat)
    ensures Advance(b, k) == b.(x := b.x + k as real * b.dx, y := b.y + k as real * b.dy)
  {
    AdvanceSum(b, k);
    SumIsProduct(b.dx, k);
    SumIsProduct(b.dy, k);
  }

  /** At speed 1 a bullet aimed with initAt is exactly on its target after
      `approachTime` ticks. */
  lemma ReachesTarget(b: Bullet, spawnX: int, spawnY: int, targetX: real, targetY: real, approachTime: nat)
    requires approachTime > 0
    ensures var r := Advance(InitAt(b, spawnX, spawnY, targetX, targetY, 1.0, approachTime), approachTime);
            r.x == targetX && r.y == targetY
  {
    var r := InitAt(b, spawnX, spawnY, targetX, targetY, 1.0, approachTime);
    AdvancePosition(r, approachTime);
  }

  /** Moving further up never makes a bullet leave: the removal test
      ignores the top edge. */
  lemma NoTopEdge(b: Bullet, screenWidth: int, screenHeight: int, y: real)
    requires y <= b.y
    ensures OffScreen(b.(y := y), screenWidth, screenHeight) ==> OffScreen(b, screenWidth, screenHeight)
  {
  }
}
