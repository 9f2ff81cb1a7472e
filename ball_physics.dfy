/** The physics of one ball and of one pair of balls in pool.py: the
    constants, the per-tick motion step, the pairwise velocity exchange
    and the wall bounce. Everything here is a value; the classes in module
    Pool apply these to their fields. */
module BallPhysics {
  import opened Vectors

  /** Window size; the rack is laid out around its centre (pool.py:6). */
  const SCREEN_X: int := 804
  const SCREEN_Y: int := 456

  /** Ball.RADIUS (pool.py:77), an integer in the source. */
  const BALL_RADIUS: int := 9
  const RADIUS: real := BALL_RADIUS as real

  /** Restitution coefficient E (pool.py:16). */
  const E: real := 1.0

  /** The factor `self.velocity *= 1` applies to a moving ball (pool.py:92). */
  const FRICTION: real := 1.0

  /** `velocity.length() > 0.1` decides whether a ball keeps moving (pool.py:90). */
  const REST_SPEED: real := 0.1

  /** Two balls touch when their centres are closer than 2*RADIUS (pool.py:106). */
  const CONTACT_DISTANCE: real := 2.0 * RADIUS

  /** The cushions: the centre is kept within 50+RADIUS .. 750-RADIUS across
      and 50+RADIUS .. 400-RADIUS down (pool.py:111-122). */
  const MIN_X: real := 50.0 + RADIUS
  const MAX_X: real := 750.0 - RADIUS
  const MIN_Y: real := 50.0 + RADIUS
  const MAX_Y: real := 400.0 - RADIUS

  /** The three colours a rack uses (pool.py:8-10); they carry no physics. */
  datatype Colour = Red | Yellow | Black

  /** What a Ball object holds: `pos`, `velocity`, `moving`,
      `collided_last_frame` and `colour` (pool.py:78-85). */
  datatype BallState = BallState(pos: Vec, vel: Vec, moving: bool, collided: bool, colour: Colour)

  /** The playing area a ball's centre is clamped into: exactly the centres
      for which neither cushion test of pool.py:111 and 117 fires. */
  predicate InTable(p: Vec): (r: bool)
    ensures r <==> !(p.x < 50.0 + RADIUS || p.x > 750.0 - RADIUS) && !(p.y < 50.0 + RADIUS || p.y > 400.0 - RADIUS)
  {
    MIN_X <= p.x <= MAX_X && MIN_Y <= p.y <= MAX_Y
  }

  /** Two centres closer than CONTACT_DISTANCE, compared on squares; the
      test is symmetric and holds for coincident centres. */
  predicate Near(p: Vec, q: Vec): (r: bool)
    ensures r <==> DistanceSquared(q, p) < CONTACT_DISTANCE * CONTACT_DISTANCE
    ensures p == q ==> r
  {
    DistanceSquared(p, q) < CONTACT_DISTANCE * CONTACT_DISTANCE
  }

  /** Near is the source's contact test on the true distance: for the
      distance `dist` between the centres (Ball.distance_to_ball), the balls
      are near iff dist < 2*RADIUS. */
  lemma NearIffCloserThanContact(p: Vec, q: Vec, dist: real)
    requires dist >= 0.0 && dist * dist == DistanceSquared(p, q)
    ensures Near(p, q) <==> dist < CONTACT_DISTANCE
  {
    LengthCompare(dist, DistanceSquared(p, q), CONTACT_DISTANCE);
  }

  // ---------------------------------------------------------------------
  // Motion step: the first half of Ball.update (pool.py:89-95)
  // ---------------------------------------------------------------------

  /** The position advances by the velocity it had before the step; a ball
      faster than REST_SPEED keeps its velocity (times FRICTION, which is 1)
      and is marked moving, any other ball is stopped dead. */
  function Move(b: BallState): (r: BallState)
    ensures r.pos == Add(b.pos, b.vel)
    ensures LengthSq(b.vel) > REST_SPEED * REST_SPEED ==> r.vel == b.vel && r.moving
    ensures LengthSq(b.vel) <= REST_SPEED * REST_SPEED ==> r.vel == Zero && !r.moving
    ensures r.collided == b.collided && r.colour == b.colour
  {
    var p := Add(b.pos, b.vel);
    if LengthSq(b.vel) > REST_SPEED * REST_SPEED then
      b.(pos := p, vel := Scale(FRICTION, b.vel), moving := true)
    else
      b.(pos := p, vel := Zero, moving := false)
  }

  /** `moving` after the step is exactly the source's test on the true speed:
      for the speed `len` (the square root of the squared length), the ball is
      moving iff len > 0.1. */
  lemma MovingIffFasterThanRest(b: BallState, len: real)
    requires len >= 0.0 && len * len == LengthSq(b.vel)
    ensures Move(b).moving <==> len > REST_SPEED
  {
    LengthCompare(len, LengthSq(b.vel), REST_SPEED);
  }

  /** The step never speeds a ball up, and once a step leaves a ball at
      rest, every further step leaves it where it is. */
  lemma MoveSettles(b: BallState)
    ensures LengthSq(Move(b).vel) <= LengthSq(b.vel)
    ensures !Move(b).moving ==> Move(Move(b)) == Move(b)
  {
    var r := Move(b);
    if !r.moving {
      assert r.vel == Zero;
      assert LengthSq(r.vel) == 0.0;
      assert Add(r.pos, r.vel) == r.pos;
    }
  }

  // ---------------------------------------------------------------------
  // Pairwise exchange: Ball.ball_collision (pool.py:138-145)
  // ---------------------------------------------------------------------

  /** The source's formula along a given collision normal n: each ball gains
      the difference of the two normal components, scaled by (1+e)/2, in
      opposite directions. Whatever n and e are, the sum of the velocities
      (the momentum of two equal masses) is unchanged. */
  function ExchangeAlong(vs: Vec, vo: Vec, n: Vec, e: real): (r: (Vec, Vec))
    ensures Add(r.0, r.1) == Add(vs, vo)
  {
    var selfDot := Dot(vs, n);
    var otherDot := Dot(vo, n);
    var f := 0.5 * (1.0 + e);
    (Add(vs, Scale(f, Scale(otherDot - selfDot, n))),
     Add(vo, Scale(f, Scale(selfDot - otherDot, n))))
  }

  /** The same exchange written for the unnormalised separation d = other.pos
      - self.pos: projecting on d/|d| and scaling by d/|d| is dividing by
      |d|², so no square root is taken. The momentum is unchanged. */
  function Exchange(vs: Vec, vo: Vec, d: Vec, e: real): (r: (Vec, Vec))
    requires d != Zero
    ensures Add(r.0, r.1) == Add(vs, vo)
  {
    var lsq := LengthSq(d);
    var selfDot := Dot(vs, d) / lsq;
    var otherDot := Dot(vo, d) / lsq;
    var f := 0.5 * (1.0 + e);
    (Add(vs, Scale(f, Scale(otherDot - selfDot, d))),
     Add(vo, Scale(f, Scale(selfDot - otherDot, d))))
  }

  /** For every unit vector n parallel to d (in particular d.normalize(), the
      normal pool.py:139-140 computes), the exchange along n is the exchange
      on d: the model's square-root-free form is the source's formula. */
  lemma ExchangeMatchesNormal(vs: Vec, vo: Vec, d: Vec, n: Vec, c: real, e: real)
    requires d != Zero
    requires n == Scale(c, d) && LengthSq(n) == 1.0
    ensures Exchange(vs, vo, d, e) == ExchangeAlong(vs, vo, n, e)
  {
    var lsq := LengthSq(d);
    var cc := c * c;
    assert LengthSq(n) == cc * lsq;
    assert cc == 1.0 / lsq;
    var a, b := Dot(vs, d), Dot(vo, d);
    assert Dot(vs, n) == c * a;
    assert Dot(vo, n) == c * b;
    var kn := c * b - c * a;
    var kd := b / lsq - a / lsq;
    assert kd == cc * (b - a);
    assert Scale(kn, n) == Scale(kd, d) by {
      assert kn * c == kd;
      assert kn * (c * d.x) == kd * d.x;
      assert kn * (c * d.y) == kd * d.y;
    }
    assert Scale(-kn, n) == Scale(-kd, d) by {
      assert (-kn) * (c * d.x) == (-kd) * d.x;
      assert (-kn) * (c * d.y) == (-kd) * d.y;
    }
    assert c * a - c * b == -kn;
    assert a / lsq - b / lsq == -kd;
  }

  /** Squared length of v + k·n, expanded. */
  lemma LengthSqShift(v: Vec, k: real, n: Vec)
    ensures LengthSq(Add(v, Scale(k, n)))
         == LengthSq(v) + 2.0 * k * Dot(v, n) + k * k * LengthSq(n)
  {
    var w := Add(v, Scale(k, n));
    assert w.x * w.x == v.x * v.x + 2.0 * k * (v.x * n.x) + k * k * (n.x * n.x);
    assert w.y * w.y == v.y * v.y + 2.0 * k * (v.y * n.y) + k * k * (n.y * n.y);
  }

  /** Along a unit normal with restitution e, the kinetic energy
      |v_self|² + |v_other|² drops by (1-e²)/2 times the square of the
      closing speed along n; with e = 1 nothing is lost. */
  lemma ExchangeAlongEnergy(vs: Vec, vo: Vec, n: Vec, e: real)
    requires LengthSq(n) == 1.0
    ensures var r := ExchangeAlong(vs, vo, n, e);
            var closing := Dot(vo, n) - Dot(vs, n);
            LengthSq(r.0) + LengthSq(r.1)
            == LengthSq(vs) + LengthSq(vo) - 0.5 * (1.0 - e * e) * (closing * closing)
  {
    var a, b := Dot(vs, n), Dot(vo, n);
    var ks := 0.5 * (1.0 + e) * (b - a);
    var ko := 0.5 * (1.0 + e) * (a - b);
    var r := ExchangeAlong(vs, vo, n, e);
    assert LengthSq(r.0) == LengthSq(vs) + 2.0 * ks * a + ks * ks by {
      AlongIsShift(vs, vo, n, e);
      LengthSqShift(vs, ks, n);
    }
    assert LengthSq(r.1) == LengthSq(vo) + 2.0 * ko * b + ko * ko by {
      AlongIsShift(vs, vo, n, e);
      LengthSqShift(vo, ko, n);
    }
    EnergyLoss(a, b, e, ks, ko);
  }

  /** ExchangeAlong moves each velocity by (1+e)/2 times the other's normal
      component minus its own, along n. */
  lemma AlongIsShift(vs: Vec, vo: Vec, n: Vec, e: real)
    ensures ExchangeAlong(vs, vo, n, e).0
         == Add(vs, Scale(0.5 * (1.0 + e) * (Dot(vo, n) - Dot(vs, n)), n))
    ensures ExchangeAlong(vs, vo, n, e).1
         == Add(vo, Scale(0.5 * (1.0 + e) * (Dot(vs, n) - Dot(vo, n)), n))
  {
    var f := 0.5 * (1.0 + e);
    ScaleScale(f, Dot(vo, n) - Dot(vs, n), n);
    ScaleScale(f, Dot(vs, n) - Dot(vo, n), n);
  }

  lemma ScaleScale(f: real, g: real, n: Vec)
    ensures Scale(f, Scale(g, n)) == Scale(f * g, n)
  {
  }

  /** The algebra behind ExchangeAlongEnergy, on plain reals. */
  lemma EnergyLoss(a: real, b: real, e: real, ks: real, ko: real)
    requires ks == 0.5 * (1.0 + e) * (b - a)
    requires ko == 0.5 * (1.0 + e) * (a - b)
    ensures 2.0 * ks * a + ks * ks + 2.0 * ko * b + ko * ko
         == -0.5 * (1.0 - e * e) * ((b - a) * (b - a))
  {
    var g := b - a;
    assert ko == -ks;
    assert ko * ko == ks * ks;
    assert 2.0 * ks * a + 2.0 * ko * b == -2.0 * ks * g;
    assert ks * ks == 0.25 * (1.0 + e) * (1.0 + e) * (g * g);
    assert -2.0 * ks * g == -(1.0 + e) * (g * g);
  }

  /** With e = 1 and a unit normal n, the balls swap their normal components
      and keep their components along any direction t perpendicular to n. */
  lemma ElasticSwap(vs: Vec, vo: Vec, n: Vec, t: Vec)
    requires LengthSq(n) == 1.0 && Dot(t, n) == 0.0
    ensures var r := ExchangeAlong(vs, vo, n, 1.0);
            Dot(r.0, n) == Dot(vo, n) && Dot(r.1, n) == Dot(vs, n) &&
            Dot(r.0, t) == Dot(vs, t) && Dot(r.1, t) == Dot(vo, t)
  {
    var a, b := Dot(vs, n), Dot(vo, n);
    AlongIsShift(vs, vo, n, 1.0);
    assert 0.5 * (1.0 + 1.0) * (b - a) == b - a && 0.5 * (1.0 + 1.0) * (a - b) == a - b;
    assert Dot(n, n) == 1.0 && Dot(n, t) == 0.0;
    DotShift(vs, b - a, n, n);
    DotShift(vo, a - b, n, n);
    DotShift(vs, b - a, n, t);
    DotShift(vo, a - b, n, t);
  }

  /** The dot product of v + k·n with w, expanded. */
  lemma DotShift(v: Vec, k: real, n: Vec, w: Vec)
    ensures Dot(Add(v, Scale(k, n)), w) == Dot(v, w) + k * Dot(n, w)
  {
  }

  /** The square-root-free exchange with E = 1 keeps the kinetic energy of
      the pair. */
  lemma ExchangeKeepsEnergy(vs: Vec, vo: Vec, d: Vec)
    requires d != Zero
    ensures var r := Exchange(vs, vo, d, E);
            LengthSq(r.0) + LengthSq(r.1) == LengthSq(vs) + LengthSq(vo)
  {
    var lsq := LengthSq(d);
    var a, b := Dot(vs, d), Dot(vo, d);
    var k := (b / lsq - a / lsq);
    var r := Exchange(vs, vo, d, E);
    assert r.0 == Add(vs, Scale(k, d));
    assert r.1 == Add(vo, Scale(-k, d));
    LengthSqShift(vs, k, d);
    LengthSqShift(vo, -k, d);
    assert k * lsq == b - a;
    assert k * k * lsq == k * (b - a);
    assert 2.0 * k * a - 2.0 * k * b + 2.0 * (k * k * lsq) == 0.0;
  }

  // ---------------------------------------------------------------------
  // Cushions: the end of Ball.check_collisions (pool.py:111-122)
  // ---------------------------------------------------------------------

  /** One axis of the cushion test: a coordinate below lo is put on lo, one
      above hi on hi, and in either case only that axis' velocity component
      is negated; a coordinate inside [lo, hi] keeps position and velocity. */
  function ClampAxis(p: real, v: real, lo: real, hi: real): (r: (real, real))
    requires lo <= hi
    ensures lo <= r.0 <= hi
    ensures p < lo ==> r == (lo, -v)
    ensures p > hi ==> r == (hi, -v)
    ensures lo <= p <= hi ==> r == (p, v)
  {
    if p < lo || p > hi then
      (if p < lo then lo else hi, -v)
    else
      (p, v)
  }

  /** Both axes are tested independently, so a corner hit reflects both.
      The ball ends inside the table, its speed is kept (a wall bounce is
      perfectly elastic), and only position and velocity can change. */
  function WallClamp(b: BallState): (r: BallState)
    ensures InTable(r.pos)
    ensures LengthSq(r.vel) == LengthSq(b.vel)
    ensures r == b.(pos := r.pos, vel := r.vel)
    ensures InTable(b.pos) ==> r == b
  {
    var x := ClampAxis(b.pos.x, b.vel.x, MIN_X, MAX_X);
    var y := ClampAxis(b.pos.y, b.vel.y, MIN_Y, MAX_Y);
    assert x.1 * x.1 == b.vel.x * b.vel.x;
    assert y.1 * y.1 == b.vel.y * b.vel.y;
    b.(pos := Vec(x.0, y.0), vel := Vec(x.1, y.1))
  }
}
