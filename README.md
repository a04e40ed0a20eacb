# Ball and rings: the simulation step

This project models the simulation core of `BallGame`, a canvas toy in which a
red ball falls and bounces inside six concentric rotating rings. Each ring has
a gap. When the ball touches a ring at its gap, the ring shatters into a burst
of 100 particles that drift and fade. When it touches a ring anywhere else, the
ball is pushed back along the radius. The model covers:

- how the ball and the rings are built;
- `createParticles`;
- the whole non-drawing body of `animate`: the ring pass, gravity and the
  move, the collision pass, the window edges and the speed clamp.

It is proved about that model in Dafny.

The model has five layers:

- `Numeric`: JavaScript's truncating `%`, specialised to `2 * Math.PI`, and the
  `Math.max`/`Math.min` clamp, over exact reals.
- `Burst`: particles. This covers `createParticles` and one frame of a
  destroyed ring's burst (move, fade by 0.01, drop the faded ones).
- `Rings`: the ring data. This covers construction, the per-frame turn, and
  the gap test exactly as written, including the negative remainders that
  `%` leaves.
- `Sim`: one frame of the game as a function on values, `Sim.Tick`. It also
  holds the game invariant `WellFormed`, runs of many frames, and the lemmas
  about them.
- `Game`: the component as it keeps its state. `Ring` objects have fields
  that change in place. A `World` object has the ball's fields and the ring
  objects. Each method is proved to have the effect of the matching `Sim`
  function. `World.Tick` is one call of `animate`.

Inputs that the game takes from the platform:

- The canvas size, in logical pixels. `getCanvasCenter` is its half.
- The readings of `Math.sqrt` and `Math.atan2` for the moved ball. These form a
  `Probe`; `IsLength` and `IsAngle` state what those functions satisfy.
- The random numbers. A `Draw` holds the cosine and sine of a random angle and
  a random speed. The launch takes one draw and a burst takes 100.

### Behaviour of the code that is easy to miss

- **The gap at the start.** At rotation 0 the gap is drawn straight up. The
  gap test still refuses a ball straight up, because `%` leaves both gap ends
  negative while the normalised ball angle is never negative. This is
  `Rings.StraightUpAtStartBounces`. For the first 39 frames no ring can
  shatter at all (`Sim.NoShatterInFirstFrames`). A ball straight to the right
  also bounces.
- **Rotation does not wrap.** The rotation only grows. The remainder is taken
  where the gap is computed, not stored.
- **A bounce does not always change the velocity.** It leaves it unchanged
  exactly when the velocity is tangential, `v . n == 0`
  (`Sim.BounceReflects`).
- **Division by zero cannot happen.** Touching a ring puts the ball at least 64
  from the centre, so the normal `(dx, dy) / dist` is always defined.
- **Sequential coupling between rings never shows.** The touching bands of two
  rings are disjoint, so at most one ring is touched per frame
  (`Sim.PassBallSingleBounce`).

## Model

| member | source | states |
|---|---|---|
| `Numeric.RemTwoPi` | src/BallGame.tsx:149-151 | `a % (2*PI)` with truncation: it is `a` less a whole number of turns and keeps the sign of `a`, below one turn in size; within one turn of zero it returns `a`; on the second positive turn it returns `a - 2*PI` |
| `Numeric.Clamp` | src/BallGame.tsx:189-196 | `max(-m, min(m, v))` lies in `[-m, m]`; it is `v` when `v` is in range and the nearer bound otherwise |
| `Burst.CreateParticles` | src/BallGame.tsx:69-81 | exactly 100 particles, all with alpha 1; particle k is spawned from draw k |
| `Burst.SpawnOnRing` | src/BallGame.tsx:71-78 | for a genuine direction (cos² + sin² = 1), a spawned particle lies on the ring's circle; its speed is the drawn speed and its velocity points radially outward |
| `Burst.Survivors` | src/BallGame.tsx:100 | `filter(p => p.alpha > 0)`: the result is no longer than the input; every survivor has alpha > 0; the survivors keep their order (a subsequence); each visible particle keeps its multiplicity; nothing is dropped when all are visible |
| `Burst.AdvanceShape` | src/BallGame.tsx:91-100 | one frame of a burst never adds particles; every particle left is visible and is the moved and faded copy of one that was there |
| `Burst.AdvanceLowersAlpha` | src/BallGame.tsx:94-100 | one frame lowers every alpha bound by 0.01 |
| `Burst.AdvanceKeepsBright` | src/BallGame.tsx:91-100 | while every alpha exceeds 0.01, a frame drops nothing and only moves and fades |
| `Burst.AdvanceUniform` | src/BallGame.tsx:91-100 | a burst whose particles share an alpha above 0.01 keeps all of them after a frame, at that alpha minus 0.01 |
| `Burst.AlphaAfter` | src/BallGame.tsx:91-100 | after n frames every alpha bound has dropped by n × 0.01 |
| `Burst.ExhaustedAfter` | src/BallGame.tsx:91-100 | a burst whose alphas are at most k × 0.01 is empty after k frames |
| `Burst.FreshBurstAfter` | src/BallGame.tsx:78-100 | a fresh burst keeps all its particles for up to 99 frames; after n frames each alpha is 1 − n × 0.01 |
| `Burst.FreshBurstLifetime` | src/BallGame.tsx:78-100 | a fresh burst has every particle after 99 frames and none after 100 |
| `Rings.RadiiSpaced` | src/BallGame.tsx:56 | the radii `80 + 35 i` are 35 apart, so they strictly increase |
| `Rings.NormalizedAngle` | src/BallGame.tsx:149 | for an `atan2` value in (−π, π], `(angle + 2π) % 2π` lies in [0, 2π); it equals the angle plus 2π for negative angles and the angle itself otherwise |
| `Rings.GapClosedWhileNegative` | src/BallGame.tsx:150-160 | when the gap end is negative, no angle ≥ 0 is in the gap |
| `Rings.GapClosedEarly` | src/BallGame.tsx:150-160 | for the game's gaps and rotation in [0, π/4), both gap ends are negative and the test fails for every angle |
| `Rings.GapHalfOpen` | src/BallGame.tsx:150-160 | for rotation in [π/4, π/2), the start is negative and the end is not; the test accepts exactly the angles up to the end; the drawn gap also contains the angles past start + 2π, which the test refuses |
| `Rings.GapMatchesArc` | src/BallGame.tsx:150-160 | once the rotated start is non-negative, the test accepts exactly the angles of the drawn gap, including across the 0/2π seam |
| `Rings.StraightUpAtStartBounces` | src/BallGame.tsx:149-160 | at rotation 0, straight up (atan2 = −π/2) lies on the drawn gap yet fails the test; angle 0 fails it too |
| `Sim.InitialWellFormed` | src/BallGame.tsx:44-67 | the initial world satisfies the invariant with every ring intact; for a genuine direction the launch speed is the drawn speed |
| `Sim.GravityStep` | src/BallGame.tsx:124-131 | vy grows by 0.18 above the centre and by 0.12 otherwise; vx is kept; the position advances by the updated velocity |
| `Sim.InsideRingIsAwayFromCentre` | src/BallGame.tsx:153-154 | a ball touching a ring is at least `r − 16` from the centre, so at least 64 for the game's rings |
| `Sim.UnitNormal` | src/BallGame.tsx:166-167 | with `dist` the square root of `dx² + dy²`, the normal `(dx, dy)/dist` has length 1 |
| `Sim.BounceReflects` | src/BallGame.tsx:166-170 | a bounce turns the radial component `v·n` into −1.5 × `v·n`; it keeps the tangential component and the position; it changes the ball exactly when `v·n ≠ 0` |
| `Sim.PassBall` | src/BallGame.tsx:142-173 | the collision pass never moves the ball |
| `Sim.Boundaries` | src/BallGame.tsx:175-187 | x is never clamped; vx is reversed and damped by 0.9 exactly on a side hit; vy is reversed and damped by 0.8 exactly on a top or bottom hit; y is unchanged otherwise; in a window at least a ball high, y ends in `[16, H − 16]`, and on a top or bottom hit it is the nearer bound (16 above the top, H − 16 below the bottom) |
| `Sim.ClampSpeed` | src/BallGame.tsx:188-196 | both velocity components end in [−6, 6]; in-range components and the position are unchanged; a component above 6 becomes 6 and one below −6 becomes −6 |
| `Sim.Tick` | src/BallGame.tsx:83-196 | after every frame, both velocity components are in [−6, 6]; the number of rings and every radius are kept |
| `Sim.TickRing` | src/BallGame.tsx:89-164 | a destroyed ring stays destroyed and keeps its rotation; only its burst ages. An intact ring turns by 0.02 and shatters exactly when the ball touches it at its turned gap; then it receives a burst from that frame's draws, and otherwise its (empty) burst is kept. Radius and gap never change |
| `Sim.AtMostOneInside` | src/BallGame.tsx:153-154 | no ball touches two different rings |
| `Sim.PassBallSingleBounce` | src/BallGame.tsx:142-173 | the ball after the pass is the single bounce of the entering ball if some ring deflects it, and the entering ball otherwise |
| `Sim.PassDeflected` | src/BallGame.tsx:153-171 | if a ring deflects the ball, the distance is positive and the pass ends with exactly the bounce off that ring |
| `Sim.TickBouncesOnce` | src/BallGame.tsx:124-196 | the ball after a frame is the edge reflection and clamp of either the moved ball or its single bounce |
| `Sim.AtMostOneShatters` | src/BallGame.tsx:153-164 | at most one ring shatters per frame |
| `Sim.TickPreservesWellFormed` | src/BallGame.tsx:83-196 | every frame keeps the invariant. The invariant is: 6 rings with radius `80 + 35 i`, the common gap and speed, rotation ≥ 0, an intact ring with no particles, and a destroyed ring with at most 100 particles of alpha in (0, 1] |
| `Sim.RunKeepsDestroyed` | src/BallGame.tsx:89-104 | over any run of frames, a destroyed ring stays destroyed and its rotation stays frozen |
| `Sim.NoShatterEarly` | src/BallGame.tsx:149-164 | intact rings that have turned k steps stay intact over frames while k plus the number of frames is at most 39; each frame adds 0.02 to the rotation |
| `Sim.NoShatterInFirstFrames` | src/BallGame.tsx:104-164 | from the start of the game, no ring shatters in the first 39 frames, wherever the ball goes |
| `Game.Ring.constructor` | src/BallGame.tsx:55-67 | the new ring is the i-th ring of `Array.from` |
| `Game.Ring.AgeBurst` | src/BallGame.tsx:91-100 | stepping the particles in place and then filtering leaves exactly `Burst.Advance` of the old burst, with nothing else changed |
| `Game.Ring.Advance` | src/BallGame.tsx:89-104 | the ring's new state is `Rings.AdvanceRing` of its old state |
| `Game.World.constructor` | src/BallGame.tsx:44-67 | the new world is valid and equals `Sim.Initial` for the canvas and the launch draw |
| `Game.World.AdvanceRings` | src/BallGame.tsx:89-122 | the loop over the rings leaves `Sim.AdvanceRings` of the old ring states |
| `Game.World.GravityAndMove` | src/BallGame.tsx:124-131 | the new ball is `Sim.GravityStep` of the old |
| `Game.World.HitOne` | src/BallGame.tsx:143-172 | one iteration of the collision loop: the ball becomes `HitBall` and the ring becomes `HitRing` of their old states |
| `Game.World.Reflect` | src/BallGame.tsx:166-170 | the new ball is `Sim.Bounce` of the old |
| `Game.World.Collide` | src/BallGame.tsx:142-173 | the loop leaves the world at `Sim.CollisionPass` of the old ball and rings |
| `Game.World.Boundaries` | src/BallGame.tsx:175-187 | the new ball is `Sim.Boundaries` of the old |
| `Game.World.ClampSpeed` | src/BallGame.tsx:188-196 | the new ball is `Sim.ClampSpeed` of the old |
| `Game.World.Tick` | src/BallGame.tsx:83-196 | one `animate` call. The world stays valid, its ball and rings are `Sim.Tick` of the old world, both velocity components end in [−6, 6], and a destroyed ring stays destroyed |

## Left out

- Drawing is not modelled. This covers canvas fills, arcs, shadows, the ring
  colours and `ringColors`, which only drawing reads.
- Canvas set-up, `devicePixelRatio`, the resize listener, the React component,
  its reset key and the commented-out reset button are not modelled. The
  canvas's logical size is an input of each frame.
- `requestAnimationFrame` is not modelled. A run of frames is a sequence of
  explicit frame inputs (`Sim.Run`).
- `Math.random`, `Math.cos`, `Math.sin`, `Math.sqrt` and `Math.atan2` are
  foreign calls, so their results are inputs.
  - `IsDirection`, `IsLength` and `IsAngle` state the facts the lemmas use.
  - The ranges of the random speeds, [1.5, 3) for the launch and [1, 3) for
    particles, are not constrained.
- IEEE-754 double rounding is not modelled; the model uses exact reals and
  `Math.PI` as its printed decimal. `Burst.FreshBurstLifetime`, "a burst lasts
  exactly 100 frames", holds in exact arithmetic. In doubles, 1 − 0.01 taken
  99 times is about 0.00999, still above zero, and taken 100 times is about
  −7.5e−16, below it; so in double arithmetic too a fresh burst keeps every
  particle for 99 frames and is empty after the 100th. The model proves this
  for exact reals only.
- Particle objects are mutated in place in the source. The model keeps them as
  values in a sequence, so it does not capture aliasing of particle objects.
  Nothing else refers to them.
- Sim.Tick: the probe is a free input. `Tick` does not require it to be the
  reading of the moved ball's offset; the lemmas that need that
  (`Sim.BounceReflects`, `Sim.UnitNormal`) require `IsLength` themselves.
