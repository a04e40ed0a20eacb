/** The six concentric rings: their construction, their per-frame rotation (or,
    once destroyed, their burst), and the gap test of the collision pass. */
module Rings {
  import opened Numeric
  import Burst

  const RingCount: nat := 6

  /** `commonGapStart`: every gap starts straight up (canvas angles grow
      clockwise, so -Pi/2 points at the top of the screen). */
  const CommonGapStart: real := -Pi / 2.0

  /** `gapSize`: the opening is an eighth of a turn. */
  const GapSize: real := Pi / 4.0

  /** `rotationSpeed`, in radians per frame. */
  const RotationSpeed: real := 0.02

  /** A ring as the game keeps it (its colour, which only drawing uses, is left
      out). `particles` is empty until the ring is destroyed. */
  datatype RingState = RingState(
    r: real,
    gapStart: real,
    gapSize: real,
    rotation: real,
    rotationSpeed: real,
    destroyed: bool,
    particles: seq<Burst.Particle>)

  /** `const r = 80 + i * 35`. */
  function Radius(i: nat): real
  {
    80.0 + (i as real) * 35.0
  }

  /** The i-th ring as `Array.from` builds it. */
  function InitialRing(i: nat): RingState
  {
    RingState(Radius(i), CommonGapStart, GapSize, 0.0, RotationSpeed, false, [])
  }

  /** Successive radii are 35 apart, so they strictly increase with the index. */
  lemma RadiiSpaced(i: nat, j: nat)
    requires i < j
    ensures Radius(i) + 35.0 <= Radius(j)
  {
  }

  /** One ring's part of the first pass over the rings: a destroyed ring ages
      its burst and no longer turns; an intact ring turns by its speed. */
  function AdvanceRing(ring: RingState): RingState
  {
    if ring.destroyed then ring.(particles := Burst.Advance(ring.particles))
    else ring.(rotation := ring.rotation + ring.rotationSpeed)
  }

  /** `(gapStart + rotation) % (2 * Math.PI)`: negative while the rotation is
      below a quarter turn, because `%` truncates. */
  function RotatedGapStart(ring: RingState): real
  {
    RemTwoPi(ring.gapStart + ring.rotation)
  }

  /** `(rotatedGapStart + gapSize) % (2 * Math.PI)`. */
  function GapEnd(ring: RingState): real
  {
    RemTwoPi(RotatedGapStart(ring) + ring.gapSize)
  }

  /** `(Math.atan2(dy, dx) + 2 * Math.PI) % (2 * Math.PI)`, given the value of
      Math.atan2, which lies in (-Pi, Pi]. */
  function NormalizedAngle(angle: real): (theta: real)
    ensures -Pi < angle <= Pi ==> 0.0 <= theta < TwoPi
    ensures -Pi < angle < 0.0 ==> theta == angle + TwoPi
    ensures 0.0 <= angle <= Pi ==> theta == angle
  {
    RemTwoPi(angle + TwoPi)
  }

  /** The `inGap` test: a plain interval when the gap's end lies above its start,
      otherwise the two pieces either side of the seam at angle 0. */
  predicate InGap(theta: real, start: real, end: real)
  {
    if end > start then start <= theta <= end else theta >= start || theta <= end
  }

  /** Reference meaning of "angle theta lies on the arc that starts at `from`
      and spans `width` radians" (the arc the ring is drawn without). */
  ghost predicate OnArc(theta: real, from: real, width: real)
  {
    Wrap(theta - from) <= width
  }

  /** Once the gap's end is negative (so is its start), no angle in [0, 2*Pi)
      passes the test: both ends are compared unnormalised with an angle that
      is normalised. */
  lemma GapClosedWhileNegative(ring: RingState, theta: real)
    requires ring.gapSize > 0.0
    requires GapEnd(ring) < 0.0
    requires theta >= 0.0
    ensures !InGap(theta, RotatedGapStart(ring), GapEnd(ring))
  {
    var s := RotatedGapStart(ring);
    assert s + ring.gapSize < 0.0;
    assert GapEnd(ring) == s + ring.gapSize;
  }

  /** For the game's rings, the gap test fails for every angle while the
      rotation is below an eighth of a turn. */
  lemma GapClosedEarly(ring: RingState, theta: real)
    requires ring.gapStart == CommonGapStart && ring.gapSize == GapSize
    requires 0.0 <= ring.rotation < Pi / 4.0
    requires theta >= 0.0
    ensures RotatedGapStart(ring) < 0.0 && GapEnd(ring) < 0.0
    ensures !InGap(theta, RotatedGapStart(ring), GapEnd(ring))
  {
    GapClosedWhileNegative(ring, theta);
  }

  /** Between an eighth and a quarter of a turn the gap straddles the seam, but
      the test only lets through the part past angle 0: an angle of the drawn
      gap on the other side of the seam is refused. */
  lemma GapHalfOpen(ring: RingState, theta: real)
    requires ring.gapStart == CommonGapStart && ring.gapSize == GapSize
    requires Pi / 4.0 <= ring.rotation < Pi / 2.0
    requires 0.0 <= theta < TwoPi
    ensures RotatedGapStart(ring) < 0.0 <= GapEnd(ring)
    ensures InGap(theta, RotatedGapStart(ring), GapEnd(ring)) <==> theta <= GapEnd(ring)
    ensures OnArc(theta, RotatedGapStart(ring), ring.gapSize)
        <==> theta <= GapEnd(ring) || theta >= RotatedGapStart(ring) + TwoPi
  {
  }

  /** From a quarter turn on, the start is non-negative and the test is exactly
      membership of the drawn gap. */
  lemma GapMatchesArc(ring: RingState, theta: real)
    requires RotatedGapStart(ring) >= 0.0
    requires 0.0 < ring.gapSize < TwoPi
    requires 0.0 <= theta < TwoPi
    ensures InGap(theta, RotatedGapStart(ring), GapEnd(ring)) <==> OnArc(theta, RotatedGapStart(ring), ring.gapSize)
  {
    var s := RotatedGapStart(ring);
    if s + ring.gapSize < TwoPi {
      assert GapEnd(ring) == s + ring.gapSize;
    } else {
      assert GapEnd(ring) == s + ring.gapSize - TwoPi;
    }
  }

  /** At the start of the game (rotation 0) a ball straight above the centre
      (Math.atan2 gives -Pi/2) is on the drawn gap, yet the test refuses it;
      so does it a ball straight to the right (angle 0). */
  lemma StraightUpAtStartBounces(i: nat)
    ensures var ring := InitialRing(i);
      && OnArc(NormalizedAngle(-Pi / 2.0), RotatedGapStart(ring), ring.gapSize)
      && !InGap(NormalizedAngle(-Pi / 2.0), RotatedGapStart(ring), GapEnd(ring))
      && !InGap(NormalizedAngle(0.0), RotatedGapStart(ring), GapEnd(ring))
  {
    var ring := InitialRing(i);
    GapClosedEarly(ring, NormalizedAngle(-Pi / 2.0));
    GapClosedEarly(ring, NormalizedAngle(0.0));
  }
}
