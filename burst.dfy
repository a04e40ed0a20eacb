/** The particle burst a ring leaves behind when the ball passes through its gap:
    `createParticles` and the per-frame drift, fade and pruning of the burst. */
module Burst {

  /** `particleCount`: every burst starts with this many particles. */
  const ParticleCount: nat := 100

  /** How much a particle's alpha drops per frame. */
  const Fade: real := 0.01

  datatype Particle = Particle(x: real, y: real, vx: real, vy: real, alpha: real)

  /** The random numbers behind one particle (or behind the ball's launch):
      the cosine and sine of a random angle and a random speed. */
  datatype Draw = Draw(cos: real, sin: real, speed: real)

  /** What Math.cos and Math.sin of one angle satisfy. */
  predicate IsDirection(d: Draw)
  {
    d.cos * d.cos + d.sin * d.sin == 1.0
  }

  /** One particle of a burst: on the ring's circle at the drawn angle, moving
      outward along that angle, fully opaque. */
  function Spawn(cx: real, cy: real, ringRadius: real, d: Draw): Particle
  {
    Particle(cx + ringRadius * d.cos, cy + ringRadius * d.sin, d.speed * d.cos, d.speed * d.sin, 1.0)
  }

  /** `createParticles(cx, cy, ringRadius)`, given one draw per particle. */
  function CreateParticles(cx: real, cy: real, ringRadius: real, draws: seq<Draw>): (ps: seq<Particle>)
    requires |draws| == ParticleCount
    ensures |ps| == ParticleCount
    ensures forall k :: 0 <= k < |ps| ==> ps[k].alpha == 1.0
    ensures forall k :: 0 <= k < |ps| ==> ps[k] == Spawn(cx, cy, ringRadius, draws[k])
  {
    seq(ParticleCount, k requires 0 <= k < ParticleCount => Spawn(cx, cy, ringRadius, draws[k]))
  }

  /** A spawned particle sits on the circle of radius `ringRadius` around the
      centre, and its velocity points straight away from the centre with the
      drawn speed. */
  lemma SpawnOnRing(cx: real, cy: real, ringRadius: real, d: Draw)
    requires IsDirection(d)
    ensures var p := Spawn(cx, cy, ringRadius, d);
      && (p.x - cx) * (p.x - cx) + (p.y - cy) * (p.y - cy) == ringRadius * ringRadius
      && p.vx * p.vx + p.vy * p.vy == d.speed * d.speed
      && (p.x - cx) * p.vx + (p.y - cy) * p.vy == ringRadius * d.speed
      && (p.x - cx) * p.vy == (p.y - cy) * p.vx
  {
    var c, s := d.cos, d.sin;
    assert (ringRadius * c) * (ringRadius * c) + (ringRadius * s) * (ringRadius * s)
        == ringRadius * ringRadius * (c * c + s * s);
    assert (d.speed * c) * (d.speed * c) + (d.speed * s) * (d.speed * s)
        == d.speed * d.speed * (c * c + s * s);
    assert (ringRadius * c) * (d.speed * c) + (ringRadius * s) * (d.speed * s)
        == ringRadius * d.speed * (c * c + s * s);
  }

  /** One frame of a particle's life: it moves by its velocity and fades. */
  function Step(p: Particle): Particle
  {
    p.(x := p.x + p.vx, y := p.y + p.vy, alpha := p.alpha - Fade)
  }

  /** The `forEach` that steps every particle of the burst. */
  function Drift(ps: seq<Particle>): seq<Particle>
  {
    seq(|ps|, k requires 0 <= k < |ps| => Step(ps[k]))
  }

  /** `a` is `b` with some of its elements deleted, the rest in their original order. */
  ghost predicate IsSubsequence<T>(a: seq<T>, b: seq<T>)
    decreases |b|
  {
    if b == [] then a == []
    else (a != [] && a[0] == b[0] && IsSubsequence(a[1..], b[1..])) || IsSubsequence(a, b[1..])
  }

  /** `filter((p) => p.alpha > 0)`: keeps, in order and with their multiplicity,
      exactly the particles that are still visible. */
  function Survivors(ps: seq<Particle>): (qs: seq<Particle>)
    ensures |qs| <= |ps|
    ensures forall q :: q in qs ==> q.alpha > 0.0
    ensures forall q: Particle {:trigger multiset(qs)[q]} :: q.alpha > 0.0 ==> multiset(qs)[q] == multiset(ps)[q]
    ensures IsSubsequence(qs, ps)
    ensures (forall p :: p in ps ==> p.alpha > 0.0) ==> qs == ps
  {
    if ps == [] then []
    else
      assert ps == [ps[0]] + ps[1..];
      if ps[0].alpha > 0.0 then [ps[0]] + Survivors(ps[1..]) else Survivors(ps[1..])
  }

  /** One frame of a destroyed ring's burst: every particle steps, then the
      faded ones are dropped. */
  function Advance(ps: seq<Particle>): seq<Particle>
  {
    Survivors(Drift(ps))
  }

  /** The burst after `n` frames. */
  function AdvanceTimes(ps: seq<Particle>, n: nat): seq<Particle>
  {
    if n == 0 then ps else Advance(AdvanceTimes(ps, n - 1))
  }

  /** A frame never adds particles, leaves only visible ones, and each of them
      is the step of a particle that was there before. */
  lemma AdvanceShape(ps: seq<Particle>)
    ensures |Advance(ps)| <= |ps|
    ensures forall q :: q in Advance(ps) ==> q.alpha > 0.0
    ensures forall q :: q in Advance(ps) ==> exists k :: 0 <= k < |ps| && q == Step(ps[k])
  {
    forall q | q in Advance(ps)
      ensures exists k :: 0 <= k < |ps| && q == Step(ps[k])
    {
      assert multiset(Advance(ps))[q] == multiset(Drift(ps))[q];
      assert q in Drift(ps);
    }
  }

  /** If every alpha is at most `a`, one frame later every alpha is at most
      `a - Fade`. */
  lemma AdvanceLowersAlpha(ps: seq<Particle>, a: real)
    requires forall p :: p in ps ==> p.alpha <= a
    ensures forall q :: q in Advance(ps) ==> q.alpha <= a - Fade
  {
    AdvanceShape(ps);
    forall q | q in Advance(ps) ensures q.alpha <= a - Fade {
      var k :| 0 <= k < |ps| && q == Step(ps[k]);
      assert ps[k] in ps;
    }
  }

  /** While every particle is brighter than one step of fade, a frame only
      moves and fades the particles and drops none. */
  lemma AdvanceKeepsBright(ps: seq<Particle>)
    requires forall p :: p in ps ==> p.alpha > Fade
    ensures Advance(ps) == Drift(ps)
  {
    forall q | q in Drift(ps) ensures q.alpha > 0.0 {
      var k :| 0 <= k < |ps| && q == Drift(ps)[k];
      assert ps[k] in ps;
    }
  }

  /** After `n` frames every alpha has dropped by at least `n * Fade`. */
  lemma {:induction false} AlphaAfter(ps: seq<Particle>, a: real, n: nat)
    requires forall p :: p in ps ==> p.alpha <= a
    ensures forall q :: q in AdvanceTimes(ps, n) ==> q.alpha <= a - n as real * Fade
  {
    if n > 0 {
      var before := AdvanceTimes(ps, n - 1);
      assert AdvanceTimes(ps, n) == Advance(before);
      AlphaAfter(ps, a, n - 1);
      var bound := a - (n - 1) as real * Fade;
      assert bound - Fade == a - n as real * Fade;
      AdvanceLowersAlpha(before, bound);
    }
  }

  /** A burst whose alphas are all at most `k * Fade` is empty after `k` frames
      (`k >= 1`). */
  lemma ExhaustedAfter(ps: seq<Particle>, k: nat)
    requires k >= 1
    requires forall p :: p in ps ==> p.alpha <= k as real * Fade
    ensures AdvanceTimes(ps, k) == []
  {
    AlphaAfter(ps, k as real * Fade, k);
    var rest := AdvanceTimes(ps, k);
    AdvanceShape(AdvanceTimes(ps, k - 1));
    HeadIsMember(rest);
  }

  lemma HeadIsMember(ps: seq<Particle>)
    ensures ps != [] ==> ps[0] in ps
  {
  }

  /** A frame of a burst whose particles all have the same alpha `a > Fade`
      keeps every particle and leaves them all at `a - Fade`. */
  lemma AdvanceUniform(ps: seq<Particle>, a: real)
    requires a > Fade
    requires forall p :: p in ps ==> p.alpha == a
    ensures |Advance(ps)| == |ps|
    ensures forall q :: q in Advance(ps) ==> q.alpha == a - Fade
  {
    AdvanceKeepsBright(ps);
    forall q | q in Drift(ps) ensures q.alpha == a - Fade {
      var k :| 0 <= k < |ps| && q == Drift(ps)[k];
      assert ps[k] in ps;
    }
  }

  /** A fresh burst (every alpha 1) keeps all its particles for 99 frames, with
      alpha `1 - n * Fade` after `n` of them. */
  lemma {:induction false} FreshBurstAfter(ps: seq<Particle>, n: nat)
    requires forall p :: p in ps ==> p.alpha == 1.0
    requires n < ParticleCount
    ensures |AdvanceTimes(ps, n)| == |ps|
    ensures forall q :: q in AdvanceTimes(ps, n) ==> q.alpha == 1.0 - n as real * Fade
  {
    if n > 0 {
      var before := AdvanceTimes(ps, n - 1);
      FreshBurstAfter(ps, n - 1);
      var a := 1.0 - (n - 1) as real * Fade;
      assert a > Fade && a - Fade == 1.0 - n as real * Fade;
      AdvanceUniform(before, a);
    }
  }

  /** In exact arithmetic a fresh burst lives exactly 100 frames: it still has
      every particle after 99 and none after 100. */
  lemma FreshBurstLifetime(ps: seq<Particle>)
    requires forall p :: p in ps ==> p.alpha == 1.0
    ensures |AdvanceTimes(ps, ParticleCount - 1)| == |ps|
    ensures AdvanceTimes(ps, ParticleCount) == []
  {
    FreshBurstAfter(ps, ParticleCount - 1);
    ExhaustedAfter(ps, ParticleCount);
  }
}
