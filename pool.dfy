/** The Ball and Game classes of pool.py, with the per-tick physics done in
    place on their fields. Every method is proved against the functions of
    modules BallPhysics, Collisions and Rack, where the properties of the
    physics are proved. A method returning `ok == false` stands for the
    ValueError that `Vector2.normalize()` raises on two coincident centres:
    the exception leaves the tick, and nothing is promised about the state. */
module Pool {
  import opened Vectors
  import opened BallPhysics
  import opened Collisions
  import opened Rack

  class Ball {
    var pos: Vec
    var velocity: Vec
    var moving: bool
    var collidedLastFrame: bool
    const colour: Colour

    /** The ball's fields as a value. */
    function State(): BallState
      reads this
    {
      BallState(pos, velocity, moving, collidedLastFrame, colour)
    }

    /** Ball.__init__ (pool.py:78-85); the random initial direction is the
        parameter `velocity`. */
    constructor (coordinates: Vec, colour: Colour, velocity: Vec)
      ensures State() == NewBall(coordinates, colour, velocity)
    {
      this.pos := coordinates;
      this.colour := colour;
      this.moving := false;
      this.velocity := velocity;
      this.moving := true;
      this.collidedLastFrame := false;
    }

    /** Ball.update (pool.py:88-97). */
    method Update(game: Game, ghost i: nat) returns (ok: bool)
      requires game.Valid() && i < |game.balls| && game.balls[i] == this
      modifies game.balls
      ensures ok == UpdateBall(old(game.States()), i).Some?
      ensures ok ==> game.States() == UpdateBall(old(game.States()), i).value
    {
      ghost var s := game.States();
      pos := Add(pos, velocity);
      if LengthSq(velocity) > REST_SPEED * REST_SPEED {
        moving := true;
        velocity := Scale(FRICTION, velocity);
      } else {
        velocity := Zero;
        moving := false;
      }
      assert game.States() == s[i := Move(s[i])] by {
        forall j | 0 <= j < |s| && j != i
          ensures game.balls[j] != this
        {
          game.Distinct(i, j);
        }
      }
      ok := CheckCollisions(game, i);
    }

    /** Ball.check_collisions (pool.py:99-122). */
    method CheckCollisions(game: Game, ghost i: nat) returns (ok: bool)
      requires game.Valid() && i < |game.balls| && game.balls[i] == this
      modifies game.balls
      ensures ok == Collisions.CheckCollisions(old(game.States()), i).Some?
      ensures ok ==> game.States() == Collisions.CheckCollisions(old(game.States()), i).value
    {
      ghost var s := game.States();
      if collidedLastFrame {
        collidedLastFrame := false;
        ok := true;
        assert game.States() == s[i := s[i].(collided := false)] by {
          forall j | 0 <= j < |s| && j != i
            ensures game.balls[j] != this
          {
            game.Distinct(i, j);
          }
        }
        return;
      }

      ok := ContactPass(game, s, i);
      if !ok {
        return;
      }
      ghost var c := Contacts(s, i, |s|).value;
      ghost var u := c[i := WallClamp(c[i]).(collided := collidedLastFrame)];
      assert Collisions.CheckCollisions(s, i) == Some(u);
      ghost var t := game.States();
      HitCushions();
      ok := true;
      assert game.States() == u by {
        assert WallClamp(t[i]) == WallClamp(c[i]).(collided := collidedLastFrame);
        forall j | 0 <= j < |s| && j != i
          ensures game.balls[j] != this
        {
          game.Distinct(i, j);
        }
      }
    }

    /** The pairwise loop of check_collisions (pool.py:104-108), from the
        states `s` the method was called on: it ends as Contacts(s, i, |s|)
        with the flag set exactly when some other ball was closer than
        2*RADIUS, or raises when Contacts does. */
    method ContactPass(game: Game, ghost s: seq<BallState>, ghost i: nat) returns (ok: bool)
      requires game.Valid() && s == game.States() && i < |s| && game.balls[i] == this
      requires !collidedLastFrame
      modifies game.balls
      ensures ok == Contacts(s, i, |s|).Some?
      ensures ok ==> game.States() == WithFlag(Contacts(s, i, |s|).value, i, collidedLastFrame)
      ensures ok ==> (collidedLastFrame <==> exists j :: 0 <= j < |s| && Touching(s, i, j))
    {
      assert s == WithFlag(s, i, false);
      var balls := game.balls;
      var k := 0;
      while k < |balls|
        invariant 0 <= k <= |balls|
        invariant Contacts(s, i, k).Some?
        invariant game.States() == WithFlag(Contacts(s, i, k).value, i, collidedLastFrame)
        invariant collidedLastFrame <==> exists j :: 0 <= j < k && Touching(s, i, j)
      {
        ok := ContactStep(game, balls[k], s, i, k);
        if !ok {
          ContactsCrashPersists(s, i, k + 1);
          return;
        }
        k := k + 1;
      }
      ok := true;
    }

    /** One turn of the pairwise loop of check_collisions (pool.py:104-108),
        against the ball at index k: the step from Contacts(s, i, k) to
        Contacts(s, i, k + 1), with the flag set when the two touch. */
    method ContactStep(game: Game, ball: Ball, ghost s: seq<BallState>, ghost i: nat, ghost k: nat)
      returns (ok: bool)
      requires game.Valid() && |s| == |game.balls| && i < |s| && k < |s|
      requires game.balls[i] == this && game.balls[k] == ball
      requires Contacts(s, i, k).Some?
      requires game.States() == WithFlag(Contacts(s, i, k).value, i, collidedLastFrame)
      requires collidedLastFrame <==> exists j :: 0 <= j < k && Touching(s, i, j)
      modifies this, ball
      ensures ok == Contacts(s, i, k + 1).Some?
      ensures ok ==> game.States() == WithFlag(Contacts(s, i, k + 1).value, i, collidedLastFrame)
      ensures ok ==> (collidedLastFrame <==> exists j :: 0 <= j < k + 1 && Touching(s, i, j))
    {
      ghost var c := Contacts(s, i, k).value;
      ghost var t := game.States();
      assert pos == c[i].pos == s[i].pos && ball.pos == c[k].pos == s[k].pos;
      if ball == this {
        assert k == i by {
          game.Distinct(i, k);
        }
        assert Contacts(s, i, k + 1) == Some(c);
        return true;
      }
      assert k != i;
      if DistanceSquared(pos, ball.pos) >= CONTACT_DISTANCE * CONTACT_DISTANCE {
        assert !Touching(s, i, k);
        assert Contacts(s, i, k + 1) == Some(c);
        return true;
      }
      assert Touching(s, i, k);
      if pos == ball.pos {
        // normalize() raises on the zero separation
        return false;
      }
      assert Contacts(s, i, k + 1) == Some(Exchanged(c, i, k));
      Collide(game, ball, c, i, k);
      ok := true;
    }

    /** A contact found by the pairwise loop (pool.py:107-108): the velocity
        exchange with the ball at index k, and the flag set. */
    method Collide(game: Game, ball: Ball, ghost c: seq<BallState>, ghost i: nat, ghost k: nat)
      requires game.Valid() && |c| == |game.balls| && i < |c| && k < |c| && i != k
      requires game.balls[i] == this && game.balls[k] == ball
      requires c[i].pos != c[k].pos
      requires game.States() == WithFlag(c, i, collidedLastFrame)
      modifies this, ball
      ensures game.States() == WithFlag(Exchanged(c, i, k), i, collidedLastFrame)
      ensures collidedLastFrame
    {
      ghost var t := game.States();
      ghost var v := Exchange(c[i].vel, c[k].vel, Sub(c[k].pos, c[i].pos), E);
      assert pos == c[i].pos && ball.pos == c[k].pos && ball != this;
      BallCollision(ball);
      collidedLastFrame := true;
      assert velocity == v.0 && ball.velocity == v.1;
      ghost var u, w := game.States(), WithFlag(Exchanged(c, i, k), i, true);
      forall j | 0 <= j < |c|
        ensures u[j] == w[j]
      {
        if j == k {
          assert u[j] == ball.State();
        } else if j == i {
          assert u[j] == State();
        } else {
          game.Distinct(i, j);
          game.Distinct(k, j);
          assert u[j] == game.balls[j].State() == t[j];
        }
      }
    }

    /** The cushion test that ends check_collisions (pool.py:111-122): each
        axis on its own, an out-of-range coordinate put on the bound it
        crossed and that velocity component negated. */
    method HitCushions()
      modifies this
      ensures State() == WallClamp(old(State()))
    {
      if pos.x < MIN_X || pos.x > MAX_X {
        if pos.x < MIN_X {
          pos := pos.(x := MIN_X);
        } else {
          pos := pos.(x := MAX_X);
        }
        velocity := velocity.(x := -velocity.x);
      }
      if pos.y < MIN_Y || pos.y > MAX_Y {
        if pos.y < MIN_Y {
          pos := pos.(y := MIN_Y);
        } else {
          pos := pos.(y := MAX_Y);
        }
        velocity := velocity.(y := -velocity.y);
      }
    }

    /** Ball.ball_collision (pool.py:138-145): the velocity exchange with
        `other` along the line of centres, in place on both balls; nothing
        but the two velocities changes. The normal is not normalised: the
        projections are divided by the squared separation instead, which
        ExchangeMatchesNormal shows to be the same exchange. */
    method BallCollision(other: Ball)
      requires other != this && other.pos != pos
      modifies this, other
      ensures pos == old(pos) && moving == old(moving) && collidedLastFrame == old(collidedLastFrame)
      ensures other.pos == old(other.pos) && other.moving == old(other.moving)
      ensures other.collidedLastFrame == old(other.collidedLastFrame)
      ensures velocity == Exchange(old(velocity), old(other.velocity), Sub(other.pos, pos), E).0
      ensures other.velocity == Exchange(old(velocity), old(other.velocity), Sub(other.pos, pos), E).1
    {
      var collision := Sub(other.pos, pos);
      var lengthSq := LengthSq(collision);
      var selfDot := Dot(velocity, collision) / lengthSq;
      var otherDot := Dot(other.velocity, collision) / lengthSq;
      velocity := Add(velocity, Scale(0.5 * (1.0 + E), Scale(otherDot - selfDot, collision)));
      other.velocity := Add(other.velocity, Scale(0.5 * (1.0 + E), Scale(selfDot - otherDot, collision)));
    }
  }

  /** The states `c` with ball i's flag set to `f`. */
  function WithFlag(c: seq<BallState>, i: nat, f: bool): seq<BallState>
    requires i < |c|
  {
    c[i := c[i].(collided := f)]
  }

  /** The states of a list of balls, in order. */
  ghost function StatesOf(bs: seq<Ball>): (r: seq<BallState>)
    reads bs
    ensures |r| == |bs| && forall j :: 0 <= j < |bs| ==> r[j] == bs[j].State()
  {
    if bs == [] then [] else StatesOf(bs[..|bs| - 1]) + [bs[|bs| - 1].State()]
  }

  class Game {
    var balls: seq<Ball>

    /** The list holds each Ball object once (rack_balls builds a new one
        for every entry). */
    ghost predicate Valid()
      reads this
    {
      forall a, b :: 0 <= a < b < |balls| ==> balls[a] != balls[b]
    }

    lemma Distinct(a: nat, b: nat)
      requires Valid() && a < |balls| && b < |balls|
      ensures balls[a] == balls[b] ==> a == b
    {
      if b < a {
        assert balls[b] != balls[a];
      }
    }

    ghost function States(): seq<BallState>
      reads this, balls
    {
      StatesOf(balls)
    }

    /** Game.__init__ without the display, clock and table image: it racks
        the balls (pool.py:26). */
    constructor (velocities: seq<Vec>)
      requires |velocities| == RACK_SIZE
      ensures Valid() && States() == RackedBalls(velocities)
    {
      balls := [];
      new;
      RackBalls(velocities);
    }

    /** Game.rack_balls (pool.py:54-58): fifteen new balls in a row, each
        built from its position, its colour and (standing for the random
        direction) its initial velocity. */
    method RackBalls(velocities: seq<Vec>)
      requires |velocities| == RACK_SIZE
      modifies this
      ensures Valid() && States() == RackedBalls(velocities)
      ensures forall b :: b in balls ==> fresh(b)
    {
      balls := [];
      var colours := RackColours();
      for i := 0 to 15
        invariant |balls| == i
        invariant Valid()
        invariant forall b :: b in balls ==> fresh(b)
        invariant forall j :: 0 <= j < i ==> balls[j].State() == RackedBalls(velocities)[j]
      {
        var ball := new Ball(Vec((SCREEN_X / 2 + 2 * BALL_RADIUS * (i - 7)) as real,
                                 (SCREEN_Y / 2) as real), colours[i], velocities[i]);
        balls := balls + [ball];
      }
    }

    /** The call `ball.update()` for the ball at index k of Game.update's
        loop (pool.py:44-45), after the first k turns from `s`. */
    method Turn(ghost s: seq<BallState>, k: nat) returns (ok: bool)
      requires Valid() && k < |balls| && |s| == |balls| && TickPrefix(s, k) == Some(States())
      modifies balls
      ensures ok == TickPrefix(s, k + 1).Some?
      ensures ok ==> TickPrefix(s, k + 1) == Some(States())
    {
      TickStep(s, k, States());
      ok := balls[k].Update(this, k);
    }

    /** Game.update (pool.py:43-45): each ball in list order, in place. */
    method Update() returns (ok: bool)
      requires Valid()
      modifies balls
      ensures ok == Tick(old(States())).Some?
      ensures ok ==> States() == Tick(old(States())).value
    {
      ghost var s := States();
      var k := 0;
      while k < |balls|
        invariant 0 <= k <= |balls|
        invariant TickPrefix(s, k) == Some(States())
      {
        ok := Turn(s, k);
        if !ok {
          TickCrashPersists(s, k + 1);
          return;
        }
        k := k + 1;
      }
      ok := true;
    }
  }
}
