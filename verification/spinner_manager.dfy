/** SpinnerManager.java: a fixed emitter that, between its start and end
    times, fires a burst of bullets every `fireInterval` ms, evenly spread
    around a circle of radius 100 and rotated by `angleStep` after each
    burst. Bullets are reused from a pool when one is available. The three
    tuning values the source reads from the configuration are constructor
    parameters here, and cos and sin are parameters of `Update`. */
module SpinnerManager {
  import Bullets

  /** The radius of the circle each burst aims at. */
  const Radius: real := 100.0
  /** `2 * Math.PI` as a double. */
  const TwoPi: real := 6.283185307179586

  datatype Spinner = Spinner(x: int, y: int, startTime: int, endTime: int,
                             baseAngle: real, lastEmit: int,
                             angleStep: real, fireInterval: int, bulletSpeed: real)

  /** The constructor: the last emission is placed one interval before the
      start, so that the first frame inside the window fires. */
  function New(x: int, y: int, startTime: int, endTime: int,
               fireInterval: int, angleStep: real, bulletSpeed: real): (sp: Spinner)
    ensures sp.x == x && sp.y == y && sp.startTime == startTime && sp.endTime == endTime
    ensures sp.fireInterval == fireInterval && sp.angleStep == angleStep && sp.bulletSpeed == bulletSpeed
    ensures sp.baseAngle == 0.0
    ensures startTime - sp.lastEmit == fireInterval
  {
    Spinner(x, y, startTime, endTime, 0.0, startTime - fireInterval, angleStep, fireInterval, bulletSpeed)
  }

  /** A frame at `elapsed` fires a burst: inside the window and at least an
      interval after the previous burst. */
  predicate Fires(sp: Spinner, elapsed: int) {
    sp.startTime <= elapsed <= sp.endTime && elapsed - sp.lastEmit >= sp.fireInterval
  }

  /** The emitter after a frame: a burst rotates it and records its time. */
  function Next(sp: Spinner, elapsed: int): (r: Spinner)
    ensures Fires(sp, elapsed) ==> r == sp.(baseAngle := sp.baseAngle + sp.angleStep, lastEmit := elapsed)
    ensures !Fires(sp, elapsed) ==> r == sp
  {
    if Fires(sp, elapsed) then sp.(baseAngle := sp.baseAngle + sp.angleStep, lastEmit := elapsed) else sp
  }

  /** The direction of bullet i of a burst of `count`. */
  function Angle(base: real, i: int, count: int): real
    requires count != 0
  {
    base + i as real * (TwoPi / count as real)
  }

  /** The bullets of one burst are evenly spaced around the full circle:
      neighbours are `2π / count` apart and bullet `count` would coincide
      with bullet 0 one turn later. */
  lemma AnglesEvenlySpaced(base: real, i: int, count: int)
    requires count > 0
    ensures Angle(base, i + 1, count) - Angle(base, i, count) == TwoPi / count as real
    ensures Angle(base, count, count) == base + TwoPi
  {
  }

  /** Bullet i of a burst: at the emitter, aimed at the point of the circle
      in its direction, so that it gets there after twice the fire interval
      at speed 1. */
  function Aim(sp: Spinner, b: Bullets.Bullet, i: int, count: int, cos: real -> real, sin: real -> real): (r: Bullets.Bullet)
    requires sp.fireInterval != 0 && count != 0
    ensures r.size == b.size && r.x == sp.x as real && r.y == sp.y as real
  {
    var ang := Angle(sp.baseAngle, i, count);
    Bullets.InitAt(b, sp.x, sp.y, sp.x as real + cos(ang) * Radius, sp.y as real + sin(ang) * Radius,
           sp.bulletSpeed, sp.fireInterval * 2)
  }

  /** The aimed velocity covers the radius, in the bullet's direction, in
      twice the fire interval at speed 1. */
  lemma AimVelocity(sp: Spinner, b: Bullets.Bullet, i: int, count: int, cos: real -> real, sin: real -> real)
    requires sp.fireInterval != 0 && count != 0
    ensures var r := Aim(sp, b, i, count, cos, sin);
            && r.dx * (2 * sp.fireInterval) as real == cos(Angle(sp.baseAngle, i, count)) * Radius * sp.bulletSpeed
            && r.dy * (2 * sp.fireInterval) as real == sin(Angle(sp.baseAngle, i, count)) * Radius * sp.bulletSpeed
  {
  }

  /** The bullet the k-th draw from the pool yields: the pool's k-th
      bullet while there is one, else a new bullet of `size`. */
  function Pick(pool: seq<Bullets.Bullet>, k: nat, size: int): Bullets.Bullet {
    if k < |pool| then pool[k] else Bullets.New(size)
  }

  /** `n` calls of `pool.pollFirst()`, each falling back to a new bullet of
      `size` once the pool is empty: the bullets obtained, in order, and the
      pool that is left. */
  function Draw(pool: seq<Bullets.Bullet>, n: nat, size: int): (r: (seq<Bullets.Bullet>, seq<Bullets.Bullet>))
    ensures |r.0| == n
    ensures forall k :: 0 <= k < n ==> r.0[k] == Pick(pool, k, size)
    ensures r.1 == if n <= |pool| then pool[n..] else []
    decreases n
  {
    if n == 0 then ([], pool)
    else
      var left := if |pool| > 0 then pool[1..] else pool;
      var rest := Draw(left, n - 1, size);
      var drawn := [Pick(pool, 0, size)] + rest.0;
      assert forall k :: 0 <= k < n ==> drawn[k] == Pick(pool, k, size) by {
        forall k | 0 < k < n
          ensures drawn[k] == Pick(pool, k, size)
        {
          assert drawn[k] == rest.0[k - 1] == Pick(left, k - 1, size);
        }
      }
      (drawn, rest.1)
  }

  /** The burst loop: bullet i is the i-th bullet drawn from the pool, aimed
      at angle i of `count`. Returns the bullets in order and what is left
      of the pool. */
  function Burst(sp: Spinner, count: int, pool: seq<Bullets.Bullet>, bulletSize: int,
                 cos: real -> real, sin: real -> real): (r: (seq<Bullets.Bullet>, seq<Bullets.Bullet>))
    requires sp.fireInterval != 0
    ensures |r.0| == if count > 0 then count else 0
    ensures |r.0| <= |pool| ==> r.1 == pool[|r.0|..]
    ensures |r.0| > |pool| ==> r.1 == []
    ensures forall k :: 0 <= k < |r.0| ==> r.0[k] == Aim(sp, Pick(pool, k, bulletSize), k, count, cos, sin)
  {
    var n := if count > 0 then count else 0;
    var d := Draw(pool, n, bulletSize);
    (seq(n, k requires 0 <= k < n => Aim(sp, d.0[k], k, count, cos, sin)), d.1)
  }

  /** What a frame leaves: the emitter, the live bullets, the pool, and
      whether the emitter is still alive. */
  datatype Step = Step(spinner: Spinner, bullets: seq<Bullets.Bullet>, pool: seq<Bullets.Bullet>, alive: bool)

  /** update: before the window nothing happens; after it the emitter
      reports that it is finished; inside it, a frame at least an interval
      after the previous burst fires `count` bullets, appended to the live
      list, and rotates the base angle. */
  function Update(sp: Spinner, elapsed: int, bullets: seq<Bullets.Bullet>, pool: seq<Bullets.Bullet>, bulletSize: int,
                  count: int, cos: real -> real, sin: real -> real): (r: Step)
    requires sp.fireInterval != 0
    ensures r.alive <==> elapsed < sp.startTime || elapsed <= sp.endTime
    ensures r.spinner == Next(sp, elapsed)
    ensures !Fires(sp, elapsed) ==> r.bullets == bullets && r.pool == pool
    ensures Fires(sp, elapsed) ==> r.bullets == bullets + Burst(sp, count, pool, bulletSize, cos, sin).0
    ensures Fires(sp, elapsed) ==>
              && |r.bullets| - |bullets| == (if count > 0 then count else 0)
              && r.bullets[..|bullets|] == bullets
              && |pool| - |r.pool| == (if count <= 0 then 0 else if count < |pool| then count else |pool|)
              && r.pool == pool[|pool| - |r.pool|..]
  {
    if elapsed < sp.startTime then Step(sp, bullets, pool, true)
    else if elapsed > sp.endTime then Step(sp, bullets, pool, false)
    else if elapsed - sp.lastEmit >= sp.fireInterval then
      var burst := Burst(sp, count, pool, bulletSize, cos, sin);
      assert (bullets + burst.0)[..|bullets|] == bullets;
      Step(Next(sp, elapsed), bullets + burst.0, burst.1, true)
    else Step(sp, bullets, pool, true)
  }

  /** The first frame inside the window always fires. */
  lemma FirstFrameFires(x: int, y: int, startTime: int, endTime: int, fireInterval: int,
                        angleStep: real, bulletSpeed: real, elapsed: int)
    requires startTime <= elapsed <= endTime
    ensures Fires(New(x, y, startTime, endTime, fireInterval, angleStep, bulletSpeed), elapsed)
  {
  }

  /** The emitter after a sequence of frames. */
  function RunSpinner(sp: Spinner, frames: seq<int>): (r: Spinner)
    ensures r == sp.(baseAngle := r.baseAngle, lastEmit := r.lastEmit)
    decreases |frames|
  {
    if frames == [] then sp else RunSpinner(Next(sp, frames[0]), frames[1..])
  }

  /** The frames of a sequence at which a burst fired. */
  function FireTimes(sp: Spinner, frames: seq<int>): (r: seq<int>)
    ensures |r| <= |frames|
    decreases |frames|
  {
    if frames == [] then []
    else (if Fires(sp, frames[0]) then [frames[0]] else []) + FireTimes(Next(sp, frames[0]), frames[1..])
  }

  /** Every burst fires at least an interval after the one before it (the
      first at least an interval after the emitter's last emission), all
      within the window. */
  lemma {:induction false} BurstsSpaced(sp: Spinner, frames: seq<int>)
    ensures var f := FireTimes(sp, frames);
            && (|f| > 0 ==> f[0] - sp.lastEmit >= sp.fireInterval)
            && (forall i :: 0 < i < |f| ==> f[i] - f[i - 1] >= sp.fireInterval)
            && (forall i :: 0 <= i < |f| ==> sp.startTime <= f[i] <= sp.endTime)
    decreases |frames|
  {
    if frames != [] {
      var n := Next(sp, frames[0]);
      BurstsSpaced(n, frames[1..]);
      var rest := FireTimes(n, frames[1..]);
      if Fires(sp, frames[0]) {
        assert FireTimes(sp, frames) == [frames[0]] + rest;
        assert forall i :: 0 < i < |rest| + 1 ==> ([frames[0]] + rest)[i] == rest[i - 1];
      } else {
        assert FireTimes(sp, frames) == rest;
      }
    }
  }

  /** k angle steps, added one at a time. */
  function Turn(k: nat, step: real): real {
    if k == 0 then 0.0 else Turn(k - 1, step) + step
  }

  lemma {:induction false} TurnIsProduct(k: nat, step: real)
    ensures Turn(k, step) == k as real * step
  {
    if k > 0 {
      TurnIsProduct(k - 1, step);
    }
  }

  /** Each burst turns the emitter by exactly one angle step. */
  lemma {:induction false} RotationPerBurst(sp: Spinner, frames: seq<int>)
    ensures RunSpinner(sp, frames).baseAngle == sp.baseAngle + |FireTimes(sp, frames)| as real * sp.angleStep
  {
    TurnCount(sp, frames);
    TurnIsProduct(|FireTimes(sp, frames)|, sp.angleStep);
  }

  lemma {:induction false} TurnCount(sp: Spinner, frames: seq<int>)
    ensures RunSpinner(sp, frames).baseAngle == sp.baseAngle + Turn(|FireTimes(sp, frames)|, sp.angleStep)
    decreases |frames|
  {
    if frames != [] {
      var n := Next(sp, frames[0]);
      TurnCount(n, frames[1..]);
      var k := |FireTimes(n, frames[1..])|;
      if Fires(sp, frames[0]) {
        assert |FireTimes(sp, frames)| == k + 1;
      } else {
        assert |FireTimes(sp, frames)| == k;
      }
    }
  }

  /** The emitter's last emission is the frame of its last burst. */
  lemma {:induction false} LastEmitIsLastBurst(sp: Spinner, frames: seq<int>)
    ensures var f := FireTimes(sp, frames);
            RunSpinner(sp, frames).lastEmit == if |f| == 0 then sp.lastEmit else f[|f| - 1]
    decreases |frames|
  {
    if frames != [] {
      var n := Next(sp, frames[0]);
      LastEmitIsLastBurst(n, frames[1..]);
      var rest := FireTimes(n, frames[1..]);
      if Fires(sp, frames[0]) {
        assert FireTimes(sp, frames) == [frames[0]] + rest;
      } else {
        assert FireTimes(sp, frames) == rest;
      }
    }
  }

  /** A window from 0 to 500 ms with a 100 ms interval, updated every 100 ms,
      fires six bursts: the end time itself still fires, since the emitter
      only stops once the clock is past it. */
  lemma SixBurstsInFiveHundredMs(angleStep: real, bulletSpeed: real)
    ensures FireTimes(New(0, 0, 0, 500, 100, angleStep, bulletSpeed), [0, 100, 200, 300, 400, 500])
            == [0, 100, 200, 300, 400, 500]
  {
    var sp := New(0, 0, 0, 500, 100, angleStep, bulletSpeed);
    var frames := [0, 100, 200, 300, 400, 500];
    assert frames[1..] == [100, 200, 300, 400, 500];
    assert frames[1..][1..] == [200, 300, 400, 500];
    assert frames[1..][1..][1..] == [300, 400, 500];
    assert frames[1..][1..][1..][1..] == [400, 500];
    assert frames[1..][1..][1..][1..][1..] == [500];
  }
}
