# Pool ball physics, in Dafny

This project models the per-frame ball physics of `pool.py`, a small pygame
pool simulation. It proves properties of that model.

The model covers:

- the motion step of `Ball.update`: an Euler step of the position, then the
  0.1 rest threshold and the friction factor of 1;
- the collision pass of `Ball.check_collisions`:
  - the `collided_last_frame` flag that skips a frame;
  - the pairwise contact test against every other ball, in list order;
  - the cushion clamp with reflection at x in [59, 741] and y in [59, 391];
- the equal-mass velocity exchange of `Ball.ball_collision`, with
  restitution `E`;
- the tick driver `Game.update`, which updates every ball once, in place,
  in list order;
- the starting layout built by `Game.rack_balls`.

Layout:

- `vectors.dfy` (module `Vectors`): 2-D vectors over the reals, standing
  for pygame's `Vector2`. No square root is ever taken. Every comparison the
  source makes on a length (`velocity.length() > 0.1`,
  `distance_to_ball(ball) < 2*RADIUS`) is made on squares instead, and
  `LengthCompare` shows this is the same test.
- `ball_physics.dfy` (module `BallPhysics`): constants, the state of one
  ball, the motion step, the exchange and the cushion clamp, as functions.
  Lemmas about them cover momentum, energy, the normal/tangential swap and
  containment.
- `collisions.dfy` (module `Collisions`): these functions on the list of
  ball states.
  - One ball's collision pass is `Contacts` and `CheckCollisions`.
  - One ball's update is `UpdateBall`.
  - One tick is `TickPrefix` and `Tick`.
  - Lemmas state what each does, and that a pass keeps the table's
    momentum and energy.
- `rack.dfy` (module `Rack`): the rack positions, colours and geometry.
- `pool.dfy` (module `Pool`): the classes.
  - `Ball` has the fields `pos`, `velocity`, `moving` and
    `collidedLastFrame`, updated in place.
  - `Game` holds the ball list.
  - Every method is proved to leave the balls in exactly the state the
    functions of `BallPhysics`, `Collisions` and `Rack` compute, whenever
    no exception is raised.

The early return for a ball flagged `collided_last_frame` skips the cushion
test as well as the contact loop. A flagged ball is therefore not kept inside
the table on that frame, and `FlaggedBallLeavesTable` exhibits one that ends
outside it. Containment holds for every ball whose flag was clear when the
tick began (`TickShape`).

`Vector2.normalize()` raises `ValueError` when two touching balls share a
centre. A raise is modelled as follows:

- in the functions, it is the `None` of an `Option`;
- in the methods, it is `ok == false`;
- `BallCollision` itself requires the two centres to differ.

## Model

| member | source | states |
|---|---|---|
| `Vectors.LengthSq` | pool.py:90 | the squared length is never negative and is zero exactly for the zero vector |
| `Vectors.DistanceSquared` | pool.py:125-126 | `distance_to_ball`, squared: never negative, zero exactly when the centres coincide |
| `Vectors.DistanceSymmetric` | pool.py:125-126 | the distance from a to b is the distance from b to a |
| `Vectors.LengthCompare` | pool.py:90 | a non-negative length compares with a non-negative bound (strictly, either way) exactly as its square compares with the bound's square |
| `BallPhysics.NearIffCloserThanContact` | pool.py:106 | the squared contact test holds iff the true centre distance is below 2*RADIUS = 18 |
| `BallPhysics.InTable` | pool.py:111-122 | a centre is in the table exactly when neither cushion test (x outside [50 + RADIUS, 750 - RADIUS], y outside [50 + RADIUS, 400 - RADIUS]) fires |
| `BallPhysics.Near` | pool.py:106 | the contact test on squared distance; it is symmetric in the two centres and holds for coincident centres |
| `BallPhysics.Move` | pool.py:89-95 | the position moves by the pre-step velocity; a squared speed above 0.01 keeps the velocity (factor 1) and sets `moving`; otherwise the velocity becomes zero and `moving` false; flag and colour are kept |
| `BallPhysics.MovingIffFasterThanRest` | pool.py:90-95 | after the step, `moving` holds exactly when the true speed exceeds 0.1 |
| `BallPhysics.MoveSettles` | pool.py:89-95 | the step never raises the speed, and a ball the step leaves at rest stays where it is on the next step |
| `BallPhysics.ExchangeAlong` | pool.py:141-145 | the source's formula along a normal n: for every E and every n, the sum of the two velocities (momentum of equal masses) is unchanged |
| `BallPhysics.Exchange` | pool.py:139-145 | the same exchange on the unnormalised separation, dividing by its squared length; momentum is unchanged |
| `BallPhysics.ExchangeMatchesNormal` | pool.py:139-145 | for every unit n parallel to the separation (such as `collision.normalize()`), `Exchange` equals the source's formula along n |
| `BallPhysics.ExchangeAlongEnergy` | pool.py:16 | along a unit normal, the pair's energy drops by (1-E²)/2 times the squared closing speed, so nothing is lost with E = 1 |
| `BallPhysics.ElasticSwap` | pool.py:16 | with E = 1 and a unit normal, the two normal components are swapped and the components along any perpendicular direction are kept |
| `BallPhysics.ExchangeKeepsEnergy` | pool.py:16 | with the source's E = 1, the exchange keeps the pair's total squared speed |
| `BallPhysics.ClampAxis` | pool.py:111-122 | one axis of the cushion test: the result lies in the bounds; a coordinate below (above) the range is put on the lower (upper) bound with that velocity component negated; an in-range one keeps both |
| `BallPhysics.WallClamp` | pool.py:111-122 | both axes clamped independently: the centre ends in [59, 741] x [59, 391], the speed is kept, only position and velocity change, and a ball already inside is unchanged |
| `Collisions.Contacts` | pool.py:104-108 | the pairwise loop over the first k balls keeps the list length, and every ball's position, flags and colour |
| `Collisions.ContactsShape` | pool.py:104-108 | a ball the loop has not reached, or that ball i does not touch, is unchanged; the loop raises exactly when a reached ball shares ball i's centre |
| `Collisions.ContactsCrashPersists` | pool.py:104-108 | once the loop has raised, the whole pass has |
| `Collisions.Exchanged` | pool.py:138-145 | `ball_collision` on the list: only the two balls' velocities change, and their sum is kept |
| `Collisions.CheckCollisions` | pool.py:99-122 | the collision pass for ball i as a function on the list; it keeps the length |
| `Collisions.CheckCollisionsShape` | pool.py:99-122 | a set flag is only cleared (nothing moves, no other ball and no cushion); otherwise the pass raises iff a ball shares the centre, the ball ends inside the table, the flag ends set iff another ball is closer than 18, and only touched balls change, in velocity only |
| `Collisions.UpdateBall` | pool.py:88-97 | `Ball.update` for ball i as a function on the list; it keeps the length |
| `Collisions.UpdateBallShape` | pool.py:88-97 | other balls keep position and flag; a flagged ball ends at pos + velocity, unclamped, flag cleared; any other ball that survives ends inside the table |
| `Collisions.TickPrefix` | pool.py:43-45 | the first k updates of the tick, in list order, keep the list length |
| `Collisions.FlaggedBallLeavesTable` | pool.py:100-102 | a lone ball at (740, 200) with velocity (5, 0) and the flag set ends the tick at (745, 200), outside the table, because the early return skips the cushion test |
| `Collisions.TickStep` | pool.py:44-45 | update k+1 of the tick is `Ball.update` on the list the first k left |
| `Collisions.TickPrefixShape` | pool.py:43-45 | balls not reached keep position and flag; reached flagged balls end with the flag cleared; reached unflagged balls end inside the table; colours never change |
| `Collisions.Tick` | pool.py:43-45 | `Game.update`: every ball updated once, in list order; a tick that does not raise keeps the number of balls |
| `Collisions.TickShape` | pool.py:43-45 | a tick keeps the number of balls and their colours, clears every set flag, and leaves every ball whose flag was clear inside the table |
| `Collisions.TickCrashPersists` | pool.py:43-45 | if one ball's update raises, the whole tick does |
| `Collisions.ExchangedConserves` | pool.py:144-145 | one exchange keeps the table's total momentum and total energy |
| `Collisions.ContactsConserve` | pool.py:104-108 | the whole pairwise loop keeps the table's total momentum and total energy |
| `Collisions.CheckCollisionsKeepsEnergy` | pool.py:99-122 | the whole collision pass, cushions included, keeps the table's total energy |
| `Rack.RackColours` | pool.py:56 | fifteen colours: seven red, seven yellow, then the black |
| `Rack.NewBall` | pool.py:78-85 | a new ball's state: at the given coordinates with the given colour and velocity, `moving`, flag clear |
| `Rack.RackPosition` | pool.py:58 | ball i's centre, computed in integers as the source does, is (402 + 18(i-7), 228) |
| `Rack.RackedBalls` | pool.py:54-58 | fifteen balls, ball i new at its rack position with colour i and its initial velocity |
| `Rack.RackLayout` | pool.py:54-58 | 7 red, 7 yellow, then the black; every ball inside the table; no two balls strictly closer than 18; neighbours exactly 18 apart |
| `Pool.Ball.constructor` | pool.py:78-85 | a new ball is at its coordinates with the given velocity, moving, with the flag clear |
| `Pool.Ball.Update` | pool.py:88-97 | in place on the ball list, the method raises iff `UpdateBall` does, and otherwise leaves exactly the states it computes |
| `Pool.Ball.CheckCollisions` | pool.py:99-122 | in place, the method raises iff `Collisions.CheckCollisions` does, and otherwise leaves exactly its states |
| `Pool.Ball.ContactPass` | pool.py:104-108 | the loop over `game.balls` ends in the states of `Contacts` over the whole list, with the flag set iff some other ball was closer than 18 |
| `Pool.Ball.ContactStep` | pool.py:105-108 | one turn of that loop takes `Contacts(s, i, k)` to `Contacts(s, i, k + 1)` and sets the flag on a contact |
| `Pool.Ball.Collide` | pool.py:107-108 | a contact exchanges velocity with the other ball (`Exchanged`) and sets the flag |
| `Pool.Ball.HitCushions` | pool.py:111-122 | the cushion test on the fields gives exactly `WallClamp` of the ball's state |
| `Pool.Ball.BallCollision` | pool.py:138-145 | only the two velocities change, and they become `Exchange` of the old velocities along the separation |
| `Pool.Game.constructor` | pool.py:26 | a new game holds the rack, with each ball a distinct object |
| `Pool.Game.RackBalls` | pool.py:54-58 | the list becomes fifteen fresh, distinct balls in the states `RackedBalls` gives |
| `Pool.Game.Turn` | pool.py:44-45 | the call of `ball.update` for ball k takes `TickPrefix(s, k)` to `TickPrefix(s, k + 1)` |
| `Pool.Game.Update` | pool.py:43-45 | in place, the tick raises iff `Tick` does, and otherwise leaves exactly the states `Tick` computes |

## Left out

- The display, clock, event loop and drawing (`Game.__init__` apart from
  racking, `run`, `handle_events`, `draw`, `Ball.draw`) are I/O and are not
  modelled. The `Table` class only loads and draws an image.
- `get_angle` is trigonometry on floats that the physics never calls.
- The random direction in `Ball.__init__` (the vector (5, 0) turned by a
  random angle) is not modelled. The initial velocity is a parameter of the
  ball constructor, of `Game.RackBalls` and of `RackedBalls`.
- Floating point is not modelled. The model computes in exact reals, so
  IEEE rounding in the position step, the dot products and the exchange is
  not captured.
- `sqrt` and `normalize` are not computed. `Exchange` divides by the squared
  separation instead of normalising it, and `ExchangeMatchesNormal` shows
  this is the source's formula for every unit normal parallel to the
  separation. `BallCollision` therefore takes no normal argument.
- The `ValueError` from normalising a zero separation is modelled only as
  "the tick raised" (`None`, `ok == false`). Nothing is promised about the
  state the exception leaves behind, so partial updates before the raise
  are not modelled.
- Python object identity is modelled by the `Game.Valid` requirement: every
  entry of the list is a different `Ball`. `rack_balls` guarantees this.
  Lists that hold the same ball twice are not modelled.
- The ball's own index in `game.balls` is passed to the update and
  collision methods as an extra ghost parameter, used only in their
  contracts. The loop still recognises the ball by identity
  (`ball is not self`), as the source does.
