/** Bomb.java: a limited number of screen-clearing bombs. Activating one
    removes every bullet within half a screen width of the given centre and
    starts a 4-second full-screen flash whose opacity rises and falls
    linearly. The source keeps this state in static fields; here it is a
    record passed to and returned from each operation. */
module Bomb {
  import opened JavaLang
  import Bullets

  const MaxBombs: int := 5
  const Duration: int := 4000
  const MaxAlpha: real := 0.5

  datatype BombState = BombState(screenW: int, screenH: int, bombsLeft: int, active: bool,
                                 startTime: int, centerX: real, centerY: real)

  /** init: the screen size, a full stock of bombs, none active. The start
      time and centre of an earlier bomb are left as they were. */
  function Init(b: BombState, w: int, h: int): (r: BombState)
    ensures r.screenW == w && r.screenH == h
    ensures r.bombsLeft == MaxBombs && !r.active
    ensures r.startTime == b.startTime && r.centerX == b.centerX && r.centerY == b.centerY
  {
    b.(screenW := w, screenH := h, bombsLeft := MaxBombs, active := false)
  }

  /** A bullet strictly farther from the centre than half the screen width. */
  predicate Far(bl: Bullets.Bullet, cx: real, cy: real, screenW: int) {
    var dx := bl.x - cx;
    var dy := bl.y - cy;
    var half := screenW as real / 2.0;
    dx * dx + dy * dy > half * half
  }

  /** `removeIf` with the in-radius test: the far bullets, in their order. */
  function KeepFar(bs: seq<Bullets.Bullet>, cx: real, cy: real, screenW: int): (r: seq<Bullets.Bullet>)
    ensures |r| <= |bs|
    ensures forall i :: 0 <= i < |r| ==> Far(r[i], cx, cy, screenW)
  {
    if bs == [] then [] else Kept(bs[0], cx, cy, screenW) + KeepFar(bs[1..], cx, cy, screenW)
  }

  /** Exactly the far bullets survive: a bullet is kept if and only if it
      was in the list and lies outside the blast radius. */
  lemma {:induction false} KeepFarMembers(bs: seq<Bullets.Bullet>, cx: real, cy: real, screenW: int, x: Bullets.Bullet)
    ensures x in KeepFar(bs, cx, cy, screenW) <==> x in bs && Far(x, cx, cy, screenW)
    decreases |bs|
  {
    if bs != [] {
      KeepFarMembers(bs[1..], cx, cy, screenW, x);
      assert x in bs <==> x == bs[0] || x in bs[1..];
    }
  }

  /** One bullet's contribution to the filtered list. */
  function Kept(bl: Bullets.Bullet, cx: real, cy: real, screenW: int): (r: seq<Bullets.Bullet>)
    ensures r == [bl] || r == []
    ensures r == [bl] <==> Far(bl, cx, cy, screenW)
  {
    if Far(bl, cx, cy, screenW) then [bl] else []
  }

  /** Filtering a concatenation filters each part: the kept bullets stay in
      their original relative order. */
  lemma {:induction false} KeepFarAppend(a: seq<Bullets.Bullet>, b: seq<Bullets.Bullet>, cx: real, cy: real, screenW: int)
    ensures KeepFar(a + b, cx, cy, screenW) == KeepFar(a, cx, cy, screenW) + KeepFar(b, cx, cy, screenW)
    decreases |a|
  {
    if a == [] {
      assert a + b == b;
    } else {
      KeepFarAppend(a[1..], b, cx, cy, screenW);
      var head := Kept(a[0], cx, cy, screenW);
      assert (a + b)[0] == a[0] && (a + b)[1..] == a[1..] + b;
      assert KeepFar(a + b, cx, cy, screenW) == head + KeepFar(a[1..] + b, cx, cy, screenW);
      assert KeepFar(a, cx, cy, screenW) == head + KeepFar(a[1..], cx, cy, screenW);
      assert head + (KeepFar(a[1..], cx, cy, screenW) + KeepFar(b, cx, cy, screenW))
          == head + KeepFar(a[1..], cx, cy, screenW) + KeepFar(b, cx, cy, screenW);
    }
  }

  /** A list of far bullets is left untouched, so a second bomb at the same
      centre removes nothing more. */
  lemma {:induction false} KeepFarAllFar(bs: seq<Bullets.Bullet>, cx: real, cy: real, screenW: int)
    requires forall i :: 0 <= i < |bs| ==> Far(bs[i], cx, cy, screenW)
    ensures KeepFar(bs, cx, cy, screenW) == bs
    decreases |bs|
  {
    if bs != [] {
      KeepFarAllFar(bs[1..], cx, cy, screenW);
    }
  }

  lemma KeepFarIdempotent(bs: seq<Bullets.Bullet>, cx: real, cy: real, screenW: int)
    ensures var once := KeepFar(bs, cx, cy, screenW);
            KeepFar(once, cx, cy, screenW) == once
  {
    KeepFarAllFar(KeepFar(bs, cx, cy, screenW), cx, cy, screenW);
  }

  /** activate: refused when no bomb is left or one is already running;
      otherwise one bomb is used, its time and centre recorded, and every
      bullet within half a screen width of the centre removed. */
  function Activate(b: BombState, cx: real, cy: real, now: int, bullets: seq<Bullets.Bullet>)
    : (r: (BombState, seq<Bullets.Bullet>))
    ensures b.bombsLeft <= 0 || b.active ==> r == (b, bullets)
    ensures b.bombsLeft > 0 && !b.active ==>
              && r.0 == b.(bombsLeft := b.bombsLeft - 1, active := true, startTime := now, centerX := cx, centerY := cy)
              && r.1 == KeepFar(bullets, cx, cy, b.screenW)
  {
    if b.bombsLeft <= 0 || b.active then (b, bullets)
    else
      (b.(bombsLeft := b.bombsLeft - 1, active := true, startTime := now, centerX := cx, centerY := cy),
       KeepFar(bullets, cx, cy, b.screenW))
  }

  /** The stock of bombs never goes negative and drops by at most one per
      activation; an activation succeeds exactly when it drops. */
  lemma ActivateUsesOneBomb(b: BombState, cx: real, cy: real, now: int, bullets: seq<Bullets.Bullet>)
    requires b.bombsLeft >= 0
    ensures var r := Activate(b, cx, cy, now, bullets).0;
            && r.bombsLeft >= 0
            && (r.bombsLeft == b.bombsLeft - 1 <==> r.active && !b.active)
            && (r.bombsLeft == b.bombsLeft || r.bombsLeft == b.bombsLeft - 1)
  {
  }

  /** update: a running bomb stops once `Duration` ms have passed since it
      was activated; otherwise nothing changes. */
  function Update(b: BombState, now: int): (r: BombState)
    ensures r == b.(active := r.active)
    ensures r.active <==> b.active && now - b.startTime < Duration
  {
    if !b.active then b
    else if now - b.startTime >= Duration then b.(active := false)
    else b
  }

  function IsActive(b: BombState): bool {
    b.active
  }

  /** After a successful activation at `now` the bomb is active, as later
      updates see it, exactly until `Duration` ms have passed. */
  lemma ActiveForDuration(b: BombState, cx: real, cy: real, now: int, bullets: seq<Bullets.Bullet>, later: int)
    requires b.bombsLeft > 0 && !b.active
    ensures IsActive(Update(Activate(b, cx, cy, now, bullets).0, later)) <==> later - now < Duration
  {
  }

  /** The flash opacity as `render` computes it, with t the fraction of the
      duration elapsed: rising from 0 to MaxAlpha over the first half, then
      falling back to 0. */
  function FlashAlpha(b: BombState, now: int): real {
    var t := (now - b.startTime) as real / Duration as real;
    if t < 0.5 then MaxAlpha * (t / 0.5) else MaxAlpha * (1.0 - (t - 0.5) / 0.5)
  }

  /** The triangular envelope: within the duration the opacity stays in
      [0, MaxAlpha], is 0 at both ends, peaks at the midpoint and is
      symmetric about it. */
  lemma FlashEnvelope(b: BombState, d: int)
    requires 0 <= d <= Duration
    ensures 0.0 <= FlashAlpha(b, b.startTime + d) <= MaxAlpha
    ensures FlashAlpha(b, b.startTime + d) == FlashAlpha(b, b.startTime + (Duration - d))
    ensures FlashAlpha(b, b.startTime) == 0.0 && FlashAlpha(b, b.startTime + Duration) == 0.0
    ensures FlashAlpha(b, b.startTime + Duration / 2) == MaxAlpha
  {
  }

  /** The opacity rises through the first half and falls through the second. */
  lemma FlashRisesThenFalls(b: BombState, d1: int, d2: int)
    requires 0 <= d1 <= d2 <= Duration
    ensures d2 <= Duration / 2 ==> FlashAlpha(b, b.startTime + d1) <= FlashAlpha(b, b.startTime + d2)
    ensures Duration / 2 <= d1 ==> FlashAlpha(b, b.startTime + d1) >= FlashAlpha(b, b.startTime + d2)
  {
  }

  /** The flash `render` draws: nothing when no bomb is running or there is
      no image, else the envelope's opacity; an opacity outside [0, 1], which
      a frame drawn before the start or after the duration but before the
      next update would give, makes the composite constructor throw. */
  function Flash(b: BombState, now: int, hasImage: bool): (r: Result<Option<real>>)
    ensures !b.active || !hasImage ==> r == Ok(None)
    ensures b.active && hasImage && 0 <= now - b.startTime <= Duration ==> r == Ok(Some(FlashAlpha(b, now)))
    ensures r.Thrown? <==> b.active && hasImage && (now < b.startTime || now - b.startTime > Duration)
    ensures r.Thrown? ==> r.error == IllegalArgument
  {
    if !b.active || !hasImage then Ok(None)
    else
      var alpha := FlashAlpha(b, now);
      assert 0 <= now - b.startTime <= Duration ==> 0.0 <= alpha <= 1.0 by {
        if 0 <= now - b.startTime <= Duration {
          FlashEnvelope(b, now - b.startTime);
          assert b.startTime + (now - b.startTime) == now;
        }
      }
      if 0.0 <= alpha <= 1.0 then Ok(Some(alpha)) else Thrown(IllegalArgument)
  }
}
