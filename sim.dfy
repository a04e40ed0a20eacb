/** The simulation step of the ball game as a function on values: one call of
    `animate` with its drawing removed. The canvas size, the readings of
    Math.sqrt and Math.atan2, and the random numbers are inputs. */
module Sim {
  import opened Numeric
  import opened Burst
  import opened Rings

  /** `ball.radius`. */
  const BallRadius: real := 16.0

  /** `gravity`; it is scaled by 1.2 above the centre and by 0.8 below. */
  const Gravity: real := 0.15

  /** `maxComponentSpeed`: the bound on each velocity component. */
  const MaxComponentSpeed: real := 6.0

  /** The factor of the normal component removed on a bounce. */
  const BounceFactor: real := 2.5

  /** How far outside a ring the ball may be and still touch it. */
  const CollisionMargin: real := 2.0

  datatype Ball = Ball(x: real, y: real, vx: real, vy: real)

  datatype Point = Point(x: real, y: real)

  /** The canvas in logical pixels (`canvas.width / scale`, `canvas.height / scale`). */
  datatype Canvas = Canvas(width: real, height: real)

  /** What the collision pass reads from Math.sqrt and Math.atan2: the ball's
      distance from the centre and the angle of its offset. The ball does not
      move during the pass, so one reading serves every ring. */
  datatype Probe = Probe(dist: real, angle: real)

  /** The inputs of one frame. */
  datatype Frame = Frame(canvas: Canvas, probe: Probe, draws: seq<Draw>)

  datatype WorldState = WorldState(ball: Ball, rings: seq<RingState>)

  /** `getCanvasCenter()`. */
  function CenterOf(canvas: Canvas): Point
  {
    Point(canvas.width / 2.0, canvas.height / 2.0)
  }

  /** What Math.sqrt(dx*dx + dy*dy) is known to satisfy. */
  predicate IsLength(dist: real, dx: real, dy: real)
  {
    dist >= 0.0 && dist * dist == dx * dx + dy * dy
  }

  /** The range of Math.atan2, the only fact about it the model uses. */
  predicate IsAngle(angle: real)
  {
    -Pi < angle <= Pi
  }

  // ---------------------------------------------------------------- construction

  /** The ball at the start: at the centre, launched along the drawn angle with
      the drawn speed. */
  function Launch(canvas: Canvas, d: Draw): Ball
  {
    var c := CenterOf(canvas);
    Ball(c.x, c.y, d.cos * d.speed, d.sin * d.speed)
  }

  function InitialRings(): seq<RingState>
  {
    seq(RingCount, i requires 0 <= i < RingCount => InitialRing(i))
  }

  function Initial(canvas: Canvas, launch: Draw): WorldState
  {
    WorldState(Launch(canvas, launch), InitialRings())
  }

  // ---------------------------------------------------------------- invariant

  /** What every ring of the game satisfies between frames. */
  ghost predicate RingWellFormed(ring: RingState, i: nat)
  {
    && ring.r == Radius(i)
    && ring.gapStart == CommonGapStart
    && ring.gapSize == GapSize
    && ring.rotationSpeed == RotationSpeed
    && ring.rotation >= 0.0
    && (!ring.destroyed ==> ring.particles == [])
    && (ring.destroyed ==> |ring.particles| <= ParticleCount)
    && (ring.destroyed ==> forall p :: p in ring.particles ==> 0.0 < p.alpha <= 1.0)
  }

  ghost predicate WellFormed(s: WorldState)
  {
    && |s.rings| == RingCount
    && forall i :: 0 <= i < |s.rings| ==> RingWellFormed(s.rings[i], i)
  }

  /** Every ring is wider than the ball, which keeps the bounce's division by
      the distance away from zero. */
  predicate Clear(rings: seq<RingState>)
  {
    forall i :: 0 <= i < |rings| ==> rings[i].r > BallRadius
  }

  lemma InitialWellFormed(canvas: Canvas, launch: Draw)
    ensures WellFormed(Initial(canvas, launch))
    ensures forall i :: 0 <= i < RingCount ==> !Initial(canvas, launch).rings[i].destroyed
    ensures IsDirection(launch) ==> var b := Initial(canvas, launch).ball;
      b.vx * b.vx + b.vy * b.vy == launch.speed * launch.speed
  {
    var c, s, v := launch.cos, launch.sin, launch.speed;
    assert (c * v) * (c * v) + (s * v) * (s * v) == (c * c + s * s) * (v * v);
  }

  lemma WellFormedIsClear(s: WorldState)
    requires WellFormed(s)
    ensures Clear(s.rings)
  {
    forall i | 0 <= i < |s.rings| ensures s.rings[i].r > BallRadius {
      assert RingWellFormed(s.rings[i], i);
    }
  }

  // ---------------------------------------------------------------- the steps

  /** The first pass over the rings. */
  function AdvanceRings(rings: seq<RingState>): seq<RingState>
  {
    seq(|rings|, i requires 0 <= i < |rings| => AdvanceRing(rings[i]))
  }

  /** Asymmetric gravity, then `x += vx; y += vy` with the updated velocity. */
  function GravityStep(b: Ball, centerY: real): (n: Ball)
    ensures n.vy == b.vy + (if b.y < centerY then 0.18 else 0.12)
    ensures n.vx == b.vx
    ensures n.x == b.x + n.vx && n.y == b.y + n.vy
  {
    var vy := if b.y < centerY then b.vy + Gravity * 1.2 else b.vy + Gravity * 0.8;
    Ball(b.x + b.vx, b.y + vy, b.vx, vy)
  }

  /** `insideRing`: the ball overlaps the ring's band. */
  predicate InsideRing(dist: real, ring: RingState)
  {
    dist + BallRadius >= ring.r && dist - BallRadius <= ring.r + CollisionMargin
  }

  /** The `inGap` test for this ring and this frame's angle. */
  predicate AtGap(ring: RingState, probe: Probe)
  {
    InGap(NormalizedAngle(probe.angle), RotatedGapStart(ring), GapEnd(ring))
  }

  /** An intact ring the ball touches at its gap: it shatters. */
  predicate Shatters(ring: RingState, probe: Probe)
  {
    !ring.destroyed && InsideRing(probe.dist, ring) && AtGap(ring, probe)
  }

  /** An intact ring the ball touches away from its gap: the ball bounces. */
  predicate Deflects(ring: RingState, probe: Probe)
  {
    !ring.destroyed && InsideRing(probe.dist, ring) && !AtGap(ring, probe)
  }

  /** Touching a ring puts the ball at least `r - BallRadius` from the centre. */
  lemma InsideRingIsAwayFromCentre(dist: real, ring: RingState)
    requires InsideRing(dist, ring)
    ensures dist >= ring.r - BallRadius
    ensures ring.r >= Radius(0) ==> dist >= 64.0
  {
  }

  /** The bounce: `v -= 2.5 * (v . n) * n` with `n = (dx, dy) / dist`. */
  function Bounce(b: Ball, dx: real, dy: real, dist: real): Ball
    requires dist != 0.0
  {
    var nx := dx / dist;
    var ny := dy / dist;
    var dot := b.vx * nx + b.vy * ny;
    b.(vx := b.vx - BounceFactor * dot * nx, vy := b.vy - BounceFactor * dot * ny)
  }

  /** The radial normal `(dx, dy) / dist` has length 1 when `dist` is the
      length of `(dx, dy)`. */
  lemma UnitNormal(dx: real, dy: real, dist: real)
    requires dist > 0.0 && dist * dist == dx * dx + dy * dy
    ensures (dx / dist) * (dx / dist) + (dy / dist) * (dy / dist) == 1.0
  {
    DivMul(dx, dist);
    DivMul(dy, dist);
    UnitFromScaled(dx / dist, dy / dist, dist, dx, dy);
  }

  /** With n the unit radial normal, a bounce turns the normal component
      `v . n` into `-1.5 * (v . n)`, keeps the tangential component, leaves the
      position alone, and changes the velocity exactly when `v . n != 0`. */
  lemma BounceReflects(b: Ball, dx: real, dy: real, dist: real)
    requires dist > 0.0 && IsLength(dist, dx, dy)
    ensures var n := Bounce(b, dx, dy, dist);
      var nx := dx / dist;
      var ny := dy / dist;
      && n.vx * nx + n.vy * ny == -1.5 * (b.vx * nx + b.vy * ny)
      && n.vy * nx - n.vx * ny == b.vy * nx - b.vx * ny
      && n.x == b.x && n.y == b.y
      && (n == b <==> b.vx * nx + b.vy * ny == 0.0)
  {
    var nx, ny := dx / dist, dy / dist;
    var dot := b.vx * nx + b.vy * ny;
    UnitNormal(dx, dy, dist);
    var n := Bounce(b, dx, dy, dist);
    assert n.vx * nx + n.vy * ny == dot - BounceFactor * dot * (nx * nx + ny * ny);
    assert n.vy * nx - n.vx * ny == b.vy * nx - b.vx * ny - BounceFactor * dot * (ny * nx - nx * ny);
    if n == b {
      assert BounceFactor * dot * nx == 0.0 && BounceFactor * dot * ny == 0.0;
    }
  }

  /** The ball's side of one iteration of the collision pass. */
  function HitBall(b: Ball, ring: RingState, probe: Probe, c: Point): Ball
    requires ring.r > BallRadius
  {
    if Deflects(ring, probe) then Bounce(b, b.x - c.x, b.y - c.y, probe.dist) else b
  }

  /** The ring's side of one iteration of the collision pass. Every ring that
      shatters in a frame would get the same `draws`, where the game draws fresh
      numbers for each `createParticles` call; that never matters, because at
      most one ring can shatter in a frame (`AtMostOneShatters`). */
  function HitRing(ring: RingState, probe: Probe, c: Point, draws: seq<Draw>): RingState
    requires |draws| == ParticleCount
  {
    if Shatters(ring, probe)
    then ring.(destroyed := true, particles := CreateParticles(c.x, c.y, ring.r, draws))
    else ring
  }

  /** The ball after the first `n` rings of the collision pass: each ring sees
      the velocity the rings before it left. */
  function PassBall(b: Ball, rings: seq<RingState>, probe: Probe, c: Point, n: nat): (r: Ball)
    requires n <= |rings| && Clear(rings)
    ensures r.x == b.x && r.y == b.y
  {
    if n == 0 then b else HitBall(PassBall(b, rings, probe, c, n - 1), rings[n - 1], probe, c)
  }

  function PassRings(rings: seq<RingState>, probe: Probe, c: Point, draws: seq<Draw>): seq<RingState>
    requires |draws| == ParticleCount
  {
    seq(|rings|, i requires 0 <= i < |rings| => HitRing(rings[i], probe, c, draws))
  }

  /** The second pass over the rings. */
  function CollisionPass(b: Ball, rings: seq<RingState>, probe: Probe, c: Point, draws: seq<Draw>): WorldState
    requires Clear(rings) && |draws| == ParticleCount
  {
    WorldState(PassBall(b, rings, probe, c, |rings|), PassRings(rings, probe, c, draws))
  }

  predicate HitsSide(b: Ball, canvas: Canvas)
  {
    b.x - BallRadius < 0.0 || b.x + BallRadius > canvas.width
  }

  predicate HitsTopOrBottom(b: Ball, canvas: Canvas)
  {
    b.y - BallRadius < 0.0 || b.y + BallRadius > canvas.height
  }

  /** Reflection off the window's edges. Only the vertical position is clamped;
      whenever the window is at least a ball high, the ball ends inside it
      vertically. */
  function Boundaries(b: Ball, canvas: Canvas): (n: Ball)
    ensures n.x == b.x
    ensures n.vx == (if HitsSide(b, canvas) then -0.9 * b.vx else b.vx)
    ensures n.vy == (if HitsTopOrBottom(b, canvas) then -0.8 * b.vy else b.vy)
    ensures !HitsTopOrBottom(b, canvas) ==> n.y == b.y
    ensures canvas.height >= 2.0 * BallRadius ==> BallRadius <= n.y <= canvas.height - BallRadius
    ensures HitsTopOrBottom(b, canvas) && canvas.height >= 2.0 * BallRadius ==>
      n.y == (if b.y < BallRadius then BallRadius else canvas.height - BallRadius)
  {
    var vx := if HitsSide(b, canvas) then b.vx * -0.9 else b.vx;
    if HitsTopOrBottom(b, canvas)
    then Ball(b.x, Max(BallRadius, Min(canvas.height - BallRadius, b.y)), vx, b.vy * -0.8)
    else b.(vx := vx)
  }

  /** Each velocity component clamped to the maximum; the position is untouched. */
  function ClampSpeed(b: Ball): (n: Ball)
    ensures -MaxComponentSpeed <= n.vx <= MaxComponentSpeed
    ensures -MaxComponentSpeed <= n.vy <= MaxComponentSpeed
    ensures n.x == b.x && n.y == b.y
    ensures -MaxComponentSpeed <= b.vx <= MaxComponentSpeed ==> n.vx == b.vx
    ensures -MaxComponentSpeed <= b.vy <= MaxComponentSpeed ==> n.vy == b.vy
    ensures b.vx > MaxComponentSpeed ==> n.vx == MaxComponentSpeed
    ensures b.vx < -MaxComponentSpeed ==> n.vx == -MaxComponentSpeed
    ensures b.vy > MaxComponentSpeed ==> n.vy == MaxComponentSpeed
    ensures b.vy < -MaxComponentSpeed ==> n.vy == -MaxComponentSpeed
  {
    b.(vx := Clamp(MaxComponentSpeed, b.vx), vy := Clamp(MaxComponentSpeed, b.vy))
  }

  /** One frame: advance the rings, apply gravity and move, collide with the
      rings in order, reflect off the edges, clamp the speed. */
  function Tick(s: WorldState, f: Frame): (t: WorldState)
    requires Clear(s.rings) && |f.draws| == ParticleCount
    ensures |t.rings| == |s.rings|
    ensures forall i :: 0 <= i < |s.rings| ==> t.rings[i].r == s.rings[i].r
    ensures -MaxComponentSpeed <= t.ball.vx <= MaxComponentSpeed
    ensures -MaxComponentSpeed <= t.ball.vy <= MaxComponentSpeed
  {
    var c := CenterOf(f.canvas);
    var rings := AdvanceRings(s.rings);
    var moved := GravityStep(s.ball, c.y);
    var hit := CollisionPass(moved, rings, f.probe, c, f.draws);
    WorldState(ClampSpeed(Boundaries(hit.ball, f.canvas)), hit.rings)
  }

  // ---------------------------------------------------------------- one frame

  /** What a frame does to ring i: a destroyed ring stays destroyed, keeps its
      rotation and ages its burst; an intact ring turns by its speed, and then
      shatters exactly when the ball touches it at its (already turned) gap,
      receiving a fresh burst. Radius and gap never change. */
  lemma TickRing(s: WorldState, f: Frame, i: nat)
    requires Clear(s.rings) && |f.draws| == ParticleCount
    requires i < |s.rings|
    ensures var was := s.rings[i];
      var now := Tick(s, f).rings[i];
      && now.r == was.r && now.gapStart == was.gapStart && now.gapSize == was.gapSize
      && now.rotationSpeed == was.rotationSpeed
      && (was.destroyed ==> now == was.(particles := Burst.Advance(was.particles)))
      && (!was.destroyed ==> now.rotation == was.rotation + was.rotationSpeed)
      && (!was.destroyed ==> (now.destroyed <==> Shatters(AdvanceRing(was), f.probe)))
      && (!was.destroyed && now.destroyed ==>
            now.particles == CreateParticles(CenterOf(f.canvas).x, CenterOf(f.canvas).y, was.r, f.draws))
      && (!was.destroyed && !now.destroyed ==> now.particles == was.particles)
  {
  }

  /** The touching bands of two different rings are disjoint: the bands are 34
      wide and the radii 35 apart. */
  lemma AtMostOneInside(rings: seq<RingState>, dist: real, i: nat, j: nat)
    requires forall k :: 0 <= k < |rings| ==> rings[k].r == Radius(k)
    requires i < |rings| && j < |rings|
    requires InsideRing(dist, rings[i]) && InsideRing(dist, rings[j])
    ensures i == j
  {
    if i < j {
      RadiiSpaced(i, j);
    } else if j < i {
      RadiiSpaced(j, i);
    }
  }

  /** Because at most one ring is touched, the sequential coupling of the pass
      never shows: the ball bounces off at most one ring, and the velocity after
      the pass is either the one it entered with or its single bounce. */
  lemma {:induction false} PassBallSingleBounce(b: Ball, rings: seq<RingState>, probe: Probe, c: Point, n: nat)
    requires forall k :: 0 <= k < |rings| ==> rings[k].r == Radius(k)
    requires n <= |rings|
    ensures Clear(rings)
    ensures PassBall(b, rings, probe, c, n) ==
      if exists k :: 0 <= k < n && Deflects(rings[k], probe)
      then Bounce(b, b.x - c.x, b.y - c.y, probe.dist)
      else b
  {
    assert Clear(rings) by {
      forall k | 0 <= k < |rings| ensures rings[k].r > BallRadius {
        assert rings[k].r == Radius(k);
      }
    }
    if n > 0 {
      PassBallSingleBounce(b, rings, probe, c, n - 1);
    }
  }

  /** The radii of the game's rings, which the first pass keeps. */
  lemma AdvancedRadii(s: WorldState)
    requires WellFormed(s)
    ensures forall k :: 0 <= k < |AdvanceRings(s.rings)| ==> AdvanceRings(s.rings)[k].r == Radius(k)
  {
    forall k | 0 <= k < |s.rings| ensures AdvanceRings(s.rings)[k].r == Radius(k) {
      assert RingWellFormed(s.rings[k], k);
    }
  }

  /** In a frame the ball bounces off at most one ring: after the pass its
      velocity is the single bounce of the moved ball if some turned ring
      deflects it, and the moved ball's otherwise. */
  lemma TickBouncesOnce(s: WorldState, f: Frame)
    requires WellFormed(s) && |f.draws| == ParticleCount
    ensures Clear(s.rings)
    ensures var c := CenterOf(f.canvas);
      var moved := GravityStep(s.ball, c.y);
      var rings := AdvanceRings(s.rings);
      Tick(s, f).ball == ClampSpeed(Boundaries(
        if exists k :: 0 <= k < |rings| && Deflects(rings[k], f.probe)
        then Bounce(moved, moved.x - c.x, moved.y - c.y, f.probe.dist)
        else moved,
        f.canvas))
  {
    WellFormedIsClear(s);
    AdvancedRadii(s);
    var c := CenterOf(f.canvas);
    PassBallSingleBounce(GravityStep(s.ball, c.y), AdvanceRings(s.rings), f.probe, c, |s.rings|);
  }

  /** A ring that deflects the ball is the only one: the pass ends with the
      single bounce off it. */
  lemma PassDeflected(b: Ball, rings: seq<RingState>, probe: Probe, c: Point, k: nat)
    requires forall j :: 0 <= j < |rings| ==> rings[j].r == Radius(j)
    requires k < |rings| && Deflects(rings[k], probe)
    ensures Clear(rings)
    ensures probe.dist > 0.0
    ensures PassBall(b, rings, probe, c, |rings|) == Bounce(b, b.x - c.x, b.y - c.y, probe.dist)
  {
    InsideRingIsAwayFromCentre(probe.dist, rings[k]);
    PassBallSingleBounce(b, rings, probe, c, |rings|);
  }

  /** At most one ring shatters in a frame. */
  lemma AtMostOneShatters(s: WorldState, f: Frame, i: nat, j: nat)
    requires WellFormed(s) && |f.draws| == ParticleCount
    requires i < |s.rings| && j < |s.rings|
    requires !s.rings[i].destroyed && Tick(s, f).rings[i].destroyed
    requires !s.rings[j].destroyed && Tick(s, f).rings[j].destroyed
    ensures i == j
  {
    WellFormedIsClear(s);
    TickRing(s, f, i);
    TickRing(s, f, j);
    var rings := AdvanceRings(s.rings);
    forall k | 0 <= k < |rings| ensures rings[k].r == Radius(k) {
      assert RingWellFormed(s.rings[k], k);
    }
    AtMostOneInside(rings, f.probe.dist, i, j);
  }

  /** A frame keeps the invariant. */
  lemma TickPreservesWellFormed(s: WorldState, f: Frame)
    requires WellFormed(s) && |f.draws| == ParticleCount
    ensures Clear(s.rings)
    ensures WellFormed(Tick(s, f))
  {
    WellFormedIsClear(s);
    var t := Tick(s, f);
    forall i | 0 <= i < |t.rings| ensures RingWellFormed(t.rings[i], i) {
      var was := s.rings[i];
      assert RingWellFormed(was, i);
      TickRing(s, f, i);
      if was.destroyed {
        AdvanceShape(was.particles);
        AdvanceLowersAlpha(was.particles, 1.0);
      }
    }
  }

  // ---------------------------------------------------------------- many frames

  /** A run of frames. */
  function Run(s: WorldState, frames: seq<Frame>): WorldState
    requires Clear(s.rings)
    requires forall k :: 0 <= k < |frames| ==> |frames[k].draws| == ParticleCount
    decreases |frames|
  {
    if frames == [] then s else Run(Tick(s, frames[0]), frames[1..])
  }

  /** Once destroyed, a ring stays destroyed and its rotation stays frozen for
      the rest of the game. */
  lemma {:induction false} RunKeepsDestroyed(s: WorldState, frames: seq<Frame>, i: nat)
    requires Clear(s.rings)
    requires forall k :: 0 <= k < |frames| ==> |frames[k].draws| == ParticleCount
    requires i < |s.rings| && s.rings[i].destroyed
    ensures |Run(s, frames).rings| == |s.rings|
    ensures Run(s, frames).rings[i].destroyed
    ensures Run(s, frames).rings[i].rotation == s.rings[i].rotation
    decreases |frames|
  {
    if frames != [] {
      TickRing(s, frames[0], i);
      RunKeepsDestroyed(Tick(s, frames[0]), frames[1..], i);
    }
  }

  /** Every ring intact, all at the same `rotation`, as built at the start. */
  ghost predicate IntactAt(s: WorldState, rotation: real)
  {
    forall i :: 0 <= i < |s.rings| ==>
      && !s.rings[i].destroyed
      && s.rings[i].rotation == rotation
      && s.rings[i].gapStart == CommonGapStart
      && s.rings[i].gapSize == GapSize
      && s.rings[i].rotationSpeed == RotationSpeed
  }

  /** Starting from intact rings turned `k` steps, while the total stays at 39
      frames no ring can shatter, wherever the ball goes: the gap test cannot
      succeed while both gap ends are negative. */
  lemma {:induction false} NoShatterEarly(s: WorldState, frames: seq<Frame>, k: nat)
    requires Clear(s.rings)
    requires forall n :: 0 <= n < |frames| ==> |frames[n].draws| == ParticleCount
    requires forall n :: 0 <= n < |frames| ==> IsAngle(frames[n].probe.angle)
    requires IntactAt(s, k as real * RotationSpeed)
    requires k + |frames| <= 39
    ensures IntactAt(Run(s, frames), (k + |frames|) as real * RotationSpeed)
    decreases |frames|
  {
    if frames != [] {
      var f := frames[0];
      var t := Tick(s, f);
      forall i | 0 <= i < |s.rings|
        ensures !t.rings[i].destroyed && t.rings[i].rotation == (k + 1) as real * RotationSpeed
      {
        TickRing(s, f, i);
        var turned := AdvanceRing(s.rings[i]);
        GapClosedEarly(turned, NormalizedAngle(f.probe.angle));
      }
      NoShatterEarly(t, frames[1..], k + 1);
    }
  }

  /** From the start of the game, no ring shatters during the first 39 frames. */
  lemma NoShatterInFirstFrames(canvas: Canvas, launch: Draw, frames: seq<Frame>)
    requires forall n :: 0 <= n < |frames| ==> |frames[n].draws| == ParticleCount
    requires forall n :: 0 <= n < |frames| ==> IsAngle(frames[n].probe.angle)
    requires |frames| <= 39
    ensures Clear(Initial(canvas, launch).rings)
    ensures |Run(Initial(canvas, launch), frames).rings| == RingCount
    ensures forall i :: 0 <= i < RingCount ==> !Run(Initial(canvas, launch), frames).rings[i].destroyed
  {
    var s := Initial(canvas, launch);
    InitialWellFormed(canvas, launch);
    WellFormedIsClear(s);
    NoShatterEarly(s, frames, 0);
    RunLength(s, frames);
  }

  lemma {:induction false} RunLength(s: WorldState, frames: seq<Frame>)
    requires Clear(s.rings)
    requires forall k :: 0 <= k < |frames| ==> |frames[k].draws| == ParticleCount
    ensures |Run(s, frames).rings| == |s.rings|
    decreases |frames|
  {
    if frames != [] {
      RunLength(Tick(s, frames[0]), frames[1..]);
    }
  }
}
