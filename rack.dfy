/** The starting layout of Game.rack_balls (pool.py:54-58): fifteen balls in
    a row through the centre of the window. */
module Rack {
  import opened Vectors
  import opened BallPhysics

  const RACK_SIZE: nat := 15

  /** `[RED]*7 + [YELLOW]*7 + [BLACK]` (pool.py:56): one colour per rack
      place. */
  function RackColours(): (r: seq<Colour>)
    ensures |r| == RACK_SIZE
    ensures forall i :: 0 <= i < 7 ==> r[i] == Red
    ensures forall i :: 7 <= i < 14 ==> r[i] == Yellow
    ensures r[14] == Black
  {
    [Red, Red, Red, Red, Red, Red, Red] + [Yellow, Yellow, Yellow, Yellow, Yellow, Yellow, Yellow] + [Black]
  }

  /** Ball i's centre, SCREEN_X//2 + 2*RADIUS*(i-7) across and SCREEN_Y//2
      down, computed in integers as the source does (pool.py:58). */
  function RackPosition(i: int): (p: Vec)
    ensures p == Vec((402 + 18 * (i - 7)) as real, 228.0)
  {
    Vec((SCREEN_X / 2 + 2 * BALL_RADIUS * (i - 7)) as real, (SCREEN_Y / 2) as real)
  }

  /** A freshly built Ball (pool.py:78-85): not at rest: it is `moving`,
      has no collision behind it, and has the velocity it was given (the
      source turns (5, 0) by a random angle). */
  function NewBall(coordinates: Vec, colour: Colour, velocity: Vec): (r: BallState)
    ensures r.pos == coordinates && r.vel == velocity && r.colour == colour
    ensures r.moving && !r.collided
  {
    BallState(coordinates, velocity, true, false, colour)
  }

  /** The rack as a list of ball states, for the initial velocities given. */
  function RackedBalls(velocities: seq<Vec>): (r: seq<BallState>)
    requires |velocities| == RACK_SIZE
    ensures |r| == RACK_SIZE
    ensures forall i :: 0 <= i < RACK_SIZE ==> r[i] == NewBall(RackPosition(i), RackColours()[i], velocities[i])
  {
    seq(RACK_SIZE, i requires 0 <= i < RACK_SIZE => NewBall(RackPosition(i), RackColours()[i], velocities[i]))
  }

  /** (18·m)² ≥ 18² for every non-zero whole number m. */
  lemma SpacingSquare(m: int)
    requires m != 0
    ensures (18 * m) as real * (18 * m) as real >= 324.0
  {
    var d := (18 * m) as real;
    var a := if d >= 0.0 then d else -d;
    assert a >= 18.0;
    assert a * a == d * d;
    var ab := 18.0 * a;
    MulMonotone(18.0, a, 18.0, 324.0, ab);
    MulMonotone(18.0, a, a, ab, a * a);
  }

  /** The rack holds seven red balls, then seven yellow, then the black;
      every ball starts inside the table; no two balls are closer than
      2*RADIUS, so the strict test of pool.py:106 does not fire between balls
      standing where `rack_balls` puts them; and neighbours are exactly
      2*RADIUS apart. */
  lemma {:induction false} RackLayout(velocities: seq<Vec>)
    requires |velocities| == RACK_SIZE
    ensures forall i :: 0 <= i < 7 ==> RackedBalls(velocities)[i].colour == Red
    ensures forall i :: 7 <= i < 14 ==> RackedBalls(velocities)[i].colour == Yellow
    ensures RackedBalls(velocities)[14].colour == Black
    ensures forall i :: 0 <= i < RACK_SIZE ==> InTable(RackedBalls(velocities)[i].pos)
    ensures forall i, j :: 0 <= i < RACK_SIZE && 0 <= j < RACK_SIZE && i != j ==>
              !Near(RackedBalls(velocities)[i].pos, RackedBalls(velocities)[j].pos)
    ensures forall i :: 0 <= i < RACK_SIZE - 1 ==>
              DistanceSquared(RackedBalls(velocities)[i].pos, RackedBalls(velocities)[i + 1].pos)
              == CONTACT_DISTANCE * CONTACT_DISTANCE
  {
    var r := RackedBalls(velocities);
    forall i, j | 0 <= i < RACK_SIZE && 0 <= j < RACK_SIZE && i != j
      ensures !Near(r[i].pos, r[j].pos)
    {
      var d := Sub(r[i].pos, r[j].pos);
      assert d == Vec((18 * (i - j)) as real, 0.0);
      SpacingSquare(i - j);
    }
    forall i | 0 <= i < RACK_SIZE - 1
      ensures DistanceSquared(r[i].pos, r[i + 1].pos) == CONTACT_DISTANCE * CONTACT_DISTANCE
    {
      assert Sub(r[i].pos, r[i + 1].pos) == Vec(-18.0, 0.0);
    }
  }
}
