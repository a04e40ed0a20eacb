/** The game as the component keeps it: ring objects whose fields change in
    place and a ball whose position and velocity are updated step by step by
    `animate`. Each method is proved against the functions of `Sim`. */
module Game {
  import opened Numeric
  import opened Burst
  import opened Rings
  import opened Sim

  /** One element of the `rings` array. */
  class Ring {
    const r: real
    const gapStart: real
    const gapSize: real
    const rotationSpeed: real
    var rotation: real
    var destroyed: bool
    var particles: seq<Particle>

    ghost function View(): RingState
      reads this
    {
      RingState(r, gapStart, gapSize, rotation, rotationSpeed, destroyed, particles)
    }

    /** The i-th ring built by `Array.from({ length: 6 }, ...)`. */
    constructor (i: nat)
      ensures View() == InitialRing(i)
    {
      r := Radius(i);
      gapStart := CommonGapStart;
      gapSize := GapSize;
      rotation := 0.0;
      rotationSpeed := RotationSpeed;
      destroyed := false;
      particles := [];
    }

    /** The destroyed branch of the first pass: every particle moves and fades
        in place, then the faded ones are filtered out. */
    method AgeBurst()
      modifies this
      ensures View() == old(View()).(particles := Burst.Advance(old(particles)))
    {
      var i := 0;
      while i < |particles|
        invariant 0 <= i <= |particles| == |old(particles)|
        invariant forall k :: 0 <= k < i ==> particles[k] == Step(old(particles)[k])
        invariant forall k :: i <= k < |particles| ==> particles[k] == old(particles)[k]
        invariant rotation == old(rotation) && destroyed == old(destroyed)
      {
        var p := particles[i];
        particles := particles[i := p.(x := p.x + p.vx, y := p.y + p.vy, alpha := p.alpha - Fade)];
        i := i + 1;
      }
      assert particles == Drift(old(particles));
      particles := Survivors(particles);
    }

    /** One ring's part of the first pass. */
    method Advance()
      modifies this
      ensures View() == AdvanceRing(old(View()))
    {
      if destroyed {
        AgeBurst();
      } else {
        rotation := rotation + rotationSpeed;
      }
    }
  }

  /** The ball and the rings of one game. */
  class World {
    var x: real
    var y: real
    var vx: real
    var vy: real
    const rings: seq<Ring>

    ghost function BallState(): Ball
      reads this
    {
      Ball(x, y, vx, vy)
    }

    ghost function RingViews(): seq<RingState>
      reads rings
    {
      seq(|rings|, i reads rings requires 0 <= i < |rings| => rings[i].View())
    }

    ghost function State(): WorldState
      reads this, rings
    {
      WorldState(BallState(), RingViews())
    }

    ghost predicate Distinct()
      reads this
    {
      forall i, j :: 0 <= i < j < |rings| ==> rings[i] != rings[j]
    }

    ghost predicate Valid()
      reads this, rings
    {
      Distinct() && WellFormed(State())
    }

    /** The effect's set-up: the ball at the centre with its random launch, and
        the six rings. */
    constructor (canvas: Canvas, launch: Draw)
      ensures Valid()
      ensures State() == Initial(canvas, launch)
    {
      var c := CenterOf(canvas);
      x, y := c.x, c.y;
      vx, vy := launch.cos * launch.speed, launch.sin * launch.speed;
      var rs: seq<Ring> := [];
      var i := 0;
      while i < RingCount
        invariant 0 <= i <= RingCount && |rs| == i
        invariant forall k :: 0 <= k < i ==> fresh(rs[k])
        invariant forall k :: 0 <= k < i ==> rs[k].View() == InitialRing(k)
        invariant forall k, l :: 0 <= k < l < i ==> rs[k] != rs[l]
      {
        var ring := new Ring(i);
        rs := rs + [ring];
        i := i + 1;
      }
      rings := rs;
      new;
      assert RingViews() == InitialRings();
      InitialWellFormed(canvas, launch);
    }

    /** `rings.forEach(...)`, the first pass. */
    method AdvanceRings()
      requires Distinct()
      modifies rings
      ensures RingViews() == Sim.AdvanceRings(old(RingViews()))
    {
      var i := 0;
      while i < |rings|
        invariant 0 <= i <= |rings|
        invariant forall k :: 0 <= k < i ==> rings[k].View() == AdvanceRing(old(rings[k].View()))
        invariant forall k :: i <= k < |rings| ==> rings[k].View() == old(rings[k].View())
      {
        rings[i].Advance();
        i := i + 1;
      }
    }

    /** Gravity, then the move. */
    method GravityAndMove(c: Point)
      modifies this
      ensures BallState() == GravityStep(old(BallState()), c.y)
    {
      if y < c.y {
        vy := vy + Gravity * 1.2;
      } else {
        vy := vy + Gravity * 0.8;
      }
      x := x + vx;
      y := y + vy;
    }

    /** One iteration of the second pass: an intact ring the ball touches
        either shatters (at its gap) or reflects the ball. */
    method HitOne(ring: Ring, c: Point, probe: Probe, draws: seq<Draw>)
      requires ring.r > BallRadius && |draws| == ParticleCount
      modifies this, ring
      ensures BallState() == HitBall(old(BallState()), old(ring.View()), probe, c)
      ensures ring.View() == HitRing(old(ring.View()), probe, c, draws)
    {
      if ring.destroyed {
        return;
      }
      var dx := x - c.x;
      var dy := y - c.y;
      var dist := probe.dist;
      var normalizedAngle := NormalizedAngle(probe.angle);
      var rotatedGapStart := RemTwoPi(ring.gapStart + ring.rotation);
      var gapEnd := RemTwoPi(rotatedGapStart + ring.gapSize);
      var insideRing := dist + BallRadius >= ring.r && dist - BallRadius <= ring.r + CollisionMargin;
      if insideRing {
        var inGap :=
          if gapEnd > rotatedGapStart
          then normalizedAngle >= rotatedGapStart && normalizedAngle <= gapEnd
          else normalizedAngle >= rotatedGapStart || normalizedAngle <= gapEnd;
        if inGap {
          ring.destroyed := true;
          ring.particles := CreateParticles(c.x, c.y, ring.r, draws);
        } else {
          Reflect(dx, dy, dist);
        }
      }
    }

    /** The bounce off a ring, along the radial normal `(dx, dy) / dist`. */
    method Reflect(dx: real, dy: real, dist: real)
      requires dist != 0.0
      modifies this
      ensures BallState() == Bounce(old(BallState()), dx, dy, dist)
    {
      var nx := dx / dist;
      var ny := dy / dist;
      var dot := vx * nx + vy * ny;
      vx := vx - BounceFactor * dot * nx;
      vy := vy - BounceFactor * dot * ny;
    }

    /** `rings.forEach(...)`, the second pass. */
    method Collide(c: Point, probe: Probe, draws: seq<Draw>)
      requires Distinct() && Clear(RingViews()) && |draws| == ParticleCount
      modifies this, rings
      ensures State() == CollisionPass(old(BallState()), old(RingViews()), probe, c, draws)
    {
      ghost var b0 := BallState();
      ghost var views := RingViews();
      var i := 0;
      while i < |rings|
        invariant 0 <= i <= |rings|
        invariant BallState() == PassBall(b0, views, probe, c, i)
        invariant forall k :: 0 <= k < i ==> rings[k].View() == HitRing(views[k], probe, c, draws)
        invariant forall k :: i <= k < |rings| ==> rings[k].View() == views[k]
      {
        assert rings[i].View() == views[i];
        HitOne(rings[i], c, probe, draws);
        i := i + 1;
      }
      assert RingViews() == PassRings(views, probe, c, draws);
    }

    /** Reflection off the window's edges. */
    method Boundaries(canvas: Canvas)
      modifies this
      ensures BallState() == Sim.Boundaries(old(BallState()), canvas)
    {
      if x - BallRadius < 0.0 || x + BallRadius > canvas.width {
        vx := vx * -0.9;
      }
      if y - BallRadius < 0.0 || y + BallRadius > canvas.height {
        vy := vy * -0.8;
        y := Max(BallRadius, Min(canvas.height - BallRadius, y));
      }
    }

    /** The per-component speed clamp. */
    method ClampSpeed()
      modifies this
      ensures BallState() == Sim.ClampSpeed(old(BallState()))
    {
      vx := Max(-MaxComponentSpeed, Min(MaxComponentSpeed, vx));
      vy := Max(-MaxComponentSpeed, Min(MaxComponentSpeed, vy));
    }

    /** One call of `animate` without its drawing. */
    method Tick(f: Frame)
      requires Valid() && |f.draws| == ParticleCount
      modifies this, rings
      ensures Valid()
      ensures State() == Sim.Tick(old(State()), f)
      ensures -MaxComponentSpeed <= vx <= MaxComponentSpeed
      ensures -MaxComponentSpeed <= vy <= MaxComponentSpeed
      ensures forall i :: 0 <= i < |rings| && old(rings[i].destroyed) ==> rings[i].destroyed
    {
      ghost var s := State();
      WellFormedIsClear(s);
      var c := CenterOf(f.canvas);
      AdvanceRings();
      GravityAndMove(c);
      Collide(c, f.probe, f.draws);
      Boundaries(f.canvas);
      ClampSpeed();
      TickPreservesWellFormed(s, f);
      forall i | 0 <= i < |rings| && s.rings[i].destroyed ensures rings[i].destroyed {
        TickRing(s, f, i);
      }
    }
  }
}
