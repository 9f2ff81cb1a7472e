/** One ball's collision pass and one tick of the game, as functions on the
    list of ball states (Ball.check_collisions, Ball.update and Game.update
    in pool.py). `None` stands for the ValueError that
    `Vector2.normalize()` raises when two touching balls share a centre:
    the exception escapes the tick. */
module Collisions {
  import opened Vectors
  import opened BallPhysics

  datatype Option<T> = None | Some(value: T)

  /** Everything but the velocity agrees. */
  predicate SameButVelocity(a: BallState, b: BallState) {
    a.pos == b.pos && a.moving == b.moving && a.collided == b.collided && a.colour == b.colour
  }

  /** Ball `j` is another ball whose centre is closer than 2*RADIUS to ball `i`'s. */
  predicate Touching(s: seq<BallState>, i: nat, j: nat)
    requires i < |s| && j < |s|
  {
    j != i && Near(s[i].pos, s[j].pos)
  }

  /** Some other ball sits exactly on ball `i`'s centre among the first `k`. */
  predicate Coincident(s: seq<BallState>, i: nat, k: nat)
    requires i < |s| && k <= |s|
  {
    exists j :: 0 <= j < k && j != i && s[j].pos == s[i].pos
  }

  /** The pairwise loop of check_collisions (pool.py:104-108) over the first
      `k` balls of the list, in list order: every other ball closer than
      2*RADIUS to ball `i` exchanges velocity with it, once. Positions, flags
      and colours never change. */
  function Contacts(s: seq<BallState>, i: nat, k: nat): (r: Option<seq<BallState>>)
    requires i < |s| && k <= |s|
    ensures r.Some? ==> |r.value| == |s|
    ensures r.Some? ==> forall j :: 0 <= j < |s| ==> SameButVelocity(r.value[j], s[j])
    decreases k
  {
    if k == 0 then Some(s)
    else
      match Contacts(s, i, k - 1)
      case None => None
      case Some(t) =>
        var j := k - 1;
        if j == i || !Near(t[i].pos, t[j].pos) then Some(t)
        else if t[i].pos == t[j].pos then None
        else
          Some(Exchanged(t, i, j))
  }

  /** A ball that ball `i` does not touch, or that the loop has not reached
      yet, is untouched; the pass raises exactly when a ball it reaches
      shares ball `i`'s centre. */
  lemma {:induction false} ContactsShape(s: seq<BallState>, i: nat, k: nat)
    requires i < |s| && k <= |s|
    ensures Contacts(s, i, k).Some? ==>
              forall j :: 0 <= j < |s| && (k <= j || !Touching(s, i, j)) && j != i ==> Contacts(s, i, k).value[j] == s[j]
    ensures Contacts(s, i, k).None? <==> Coincident(s, i, k)
    decreases k
  {
    if k > 0 {
      ContactsShape(s, i, k - 1);
      var j := k - 1;
      if Contacts(s, i, k - 1).Some? {
        var t := Contacts(s, i, k - 1).value;
        assert t[i].pos == s[i].pos && t[j].pos == s[j].pos;
      } else {
        assert Coincident(s, i, k) by {
          var m :| 0 <= m < k - 1 && m != i && s[m].pos == s[i].pos;
          assert 0 <= m < k;
        }
      }
    }
  }

  /** Once the pass has raised, it stays raised. */
  lemma {:induction false} ContactsCrashPersists(s: seq<BallState>, i: nat, k: nat)
    requires i < |s| && k <= |s| && Contacts(s, i, k).None?
    ensures Contacts(s, i, |s|).None?
    decreases |s| - k
  {
    if k < |s| {
      ContactsCrashPersists(s, i, k + 1);
    }
  }

  /** The list after ball_collision between balls i and j (pool.py:138-145):
      the pair trades velocity along the line of centres, keeping its total
      momentum; nothing else changes. */
  function Exchanged(t: seq<BallState>, i: nat, j: nat): (r: seq<BallState>)
    requires i < |t| && j < |t| && i != j && t[i].pos != t[j].pos
    ensures |r| == |t| && SameButVelocity(r[i], t[i]) && SameButVelocity(r[j], t[j])
    ensures Add(r[i].vel, r[j].vel) == Add(t[i].vel, t[j].vel)
    ensures forall m :: 0 <= m < |t| && m != i && m != j ==> r[m] == t[m]
  {
    var v := Exchange(t[i].vel, t[j].vel, Sub(t[j].pos, t[i].pos), E);
    t[i := t[i].(vel := v.0)][j := t[j].(vel := v.1)]
  }

  /** Ball.check_collisions (pool.py:99-122) for ball `i`. */
  function CheckCollisions(s: seq<BallState>, i: nat): (r: Option<seq<BallState>>)
    requires i < |s|
    ensures r.Some? ==> |r.value| == |s|
  {
    if s[i].collided then
      Some(s[i := s[i].(collided := false)])
    else
      match Contacts(s, i, |s|)
      case None => None
      case Some(t) =>
        var touched := exists j :: 0 <= j < |s| && Touching(s, i, j);
        Some(t[i := WallClamp(t[i]).(collided := touched)])
  }

  /** A ball flagged `collided_last_frame` only has the flag cleared: nothing
      moves, no other ball is touched and the cushions are not tested.
      Otherwise the pass raises exactly when another ball shares its centre;
      when it does not, the ball ends inside the table, its flag says whether
      any other ball was closer than 2*RADIUS, and the other balls keep
      everything but their velocity, which changes only for balls it touched. */
  lemma CheckCollisionsShape(s: seq<BallState>, i: nat)
    requires i < |s|
    ensures s[i].collided ==>
              CheckCollisions(s, i) == Some(s[i := s[i].(collided := false)])
    ensures !s[i].collided ==> (CheckCollisions(s, i).None? <==> Coincident(s, i, |s|))
    ensures CheckCollisions(s, i).Some? ==>
              CheckCollisions(s, i).value[i].colour == s[i].colour &&
              CheckCollisions(s, i).value[i].moving == s[i].moving
    ensures CheckCollisions(s, i).Some? ==>
              forall j :: 0 <= j < |s| && j != i ==> SameButVelocity(CheckCollisions(s, i).value[j], s[j])
    ensures CheckCollisions(s, i).Some? ==>
              forall j :: 0 <= j < |s| && !Touching(s, i, j) && j != i ==> CheckCollisions(s, i).value[j] == s[j]
    ensures CheckCollisions(s, i).Some? && !s[i].collided ==>
              InTable(CheckCollisions(s, i).value[i].pos) &&
              (CheckCollisions(s, i).value[i].collided <==> exists j :: 0 <= j < |s| && Touching(s, i, j))
  {
    ContactsShape(s, i, |s|);
  }

  /** Ball.update (pool.py:88-97): the motion step, then the collision pass. */
  function UpdateBall(s: seq<BallState>, i: nat): (r: Option<seq<BallState>>)
    requires i < |s|
    ensures r.Some? ==> |r.value| == |s|
  {
    CheckCollisions(s[i := Move(s[i])], i)
  }

  /** Only ball `i` can move; the other balls keep position and flag. A ball
      that had collided the frame before is not clamped to the table: it sits
      where its velocity took it, flag cleared. Any other ball that survives
      the pass ends inside the table. */
  lemma UpdateBallShape(s: seq<BallState>, i: nat)
    requires i < |s|
    ensures UpdateBall(s, i).Some? ==>
              forall j :: 0 <= j < |s| && j != i ==> SameButVelocity(UpdateBall(s, i).value[j], s[j])
    ensures UpdateBall(s, i).Some? ==> UpdateBall(s, i).value[i].colour == s[i].colour
    ensures s[i].collided ==>
              UpdateBall(s, i).Some? && !UpdateBall(s, i).value[i].collided &&
              UpdateBall(s, i).value[i].pos == Add(s[i].pos, s[i].vel)
    ensures UpdateBall(s, i).Some? && !s[i].collided ==> InTable(UpdateBall(s, i).value[i].pos)
  {
    var m := s[i := Move(s[i])];
    CheckCollisionsShape(m, i);
    assert forall j :: 0 <= j < |s| && j != i ==> m[j] == s[j];
  }

  /** The first `k` calls of Game.update's loop (pool.py:43-45), in list
      order, each on the state the previous one left. */
  function TickPrefix(s: seq<BallState>, k: nat): (r: Option<seq<BallState>>)
    requires k <= |s|
    ensures r.Some? ==> |r.value| == |s|
    decreases k
  {
    if k == 0 then Some(s)
    else
      match TickPrefix(s, k - 1)
      case None => None
      case Some(t) => UpdateBall(t, k - 1)
  }

  /** Game.update: every ball updated once, in list order. */
  function Tick(s: seq<BallState>): (r: Option<seq<BallState>>)
    ensures r.Some? ==> |r.value| == |s|
  {
    TickPrefix(s, |s|)
  }

  /** A ball's own turn is the only time its position and flag change: balls
      not reached yet keep them, and every ball already updated ends with its
      flag cleared if it was set, or inside the table if it was not. Colours
      never change. */
  lemma {:induction false} TickPrefixShape(s: seq<BallState>, k: nat)
    requires k <= |s| && TickPrefix(s, k).Some?
    ensures forall j :: k <= j < |s| ==> SameButVelocity(TickPrefix(s, k).value[j], s[j])
    ensures forall j :: 0 <= j < |s| ==> TickPrefix(s, k).value[j].colour == s[j].colour
    ensures forall j :: 0 <= j < k && s[j].collided ==> !TickPrefix(s, k).value[j].collided
    ensures forall j :: 0 <= j < k && !s[j].collided ==> InTable(TickPrefix(s, k).value[j].pos)
    decreases k
  {
    if k > 0 {
      TickPrefixShape(s, k - 1);
      UpdateBallShape(TickPrefix(s, k - 1).value, k - 1);
    }
  }

  /** A tick that does not raise keeps the number of balls and their colours;
      every ball whose flag was clear at the start ends inside the table, and
      every ball whose flag was set ends with it cleared, so the flag
      alternates frame by frame while a ball is in contact. */
  lemma TickShape(s: seq<BallState>)
    requires Tick(s).Some?
    ensures |Tick(s).value| == |s|
    ensures forall j :: 0 <= j < |s| && !s[j].collided ==> InTable(Tick(s).value[j].pos)
    ensures forall j :: 0 <= j < |s| && s[j].collided ==> !Tick(s).value[j].collided
    ensures forall j :: 0 <= j < |s| ==> Tick(s).value[j].colour == s[j].colour
  {
    TickPrefixShape(s, |s|);
  }

  /** The early return of pool.py:100-102 skips the cushion test too, so a
      ball flagged on the previous frame is not kept inside the table: a lone
      ball at (740, 200) moving at (5, 0) with the flag set ends the tick at
      (745, 200), beyond MAX_X = 741. The example state is arbitrary and is
      not reached from a rack: in a one-ball list pool.py:108 never sets the
      flag. The general fact is the third ensures of UpdateBallShape, and
      TickShape promises containment only for balls whose flag was clear. */
  lemma FlaggedBallLeavesTable()
    ensures var s := [BallState(Vec(740.0, 200.0), Vec(5.0, 0.0), true, true, Red)];
            Tick(s) == Some([BallState(Vec(745.0, 200.0), Vec(5.0, 0.0), true, false, Red)])
            && !InTable(Tick(s).value[0].pos)
  {
    var s := [BallState(Vec(740.0, 200.0), Vec(5.0, 0.0), true, true, Red)];
    assert LengthSq(s[0].vel) == 25.0;
    var m := s[0 := Move(s[0])];
    assert m == [BallState(Vec(745.0, 200.0), Vec(5.0, 0.0), true, true, Red)];
    assert UpdateBall(s, 0) == CheckCollisions(m, 0);
    assert m[0].collided;
    assert m[0 := m[0].(collided := false)] == [BallState(Vec(745.0, 200.0), Vec(5.0, 0.0), true, false, Red)];
    assert CheckCollisions(m, 0) == Some([BallState(Vec(745.0, 200.0), Vec(5.0, 0.0), true, false, Red)]);
    assert TickPrefix(s, 0) == Some(s);
    assert Tick(s) == TickPrefix(s, 1) == UpdateBall(s, 0);
  }

  /** The turn of ball k follows the first k turns. */
  lemma TickStep(s: seq<BallState>, k: nat, t: seq<BallState>)
    requires k < |s| && TickPrefix(s, k) == Some(t)
    ensures TickPrefix(s, k + 1) == UpdateBall(t, k)
  {
  }

  /** Once a ball's turn has raised, the whole tick has. */
  lemma {:induction false} TickCrashPersists(s: seq<BallState>, k: nat)
    requires k <= |s| && TickPrefix(s, k).None?
    ensures Tick(s).None?
    decreases |s| - k
  {
    if k < |s| {
      TickCrashPersists(s, k + 1);
    }
  }

  // ---------------------------------------------------------------------
  // Conservation over a whole collision pass
  // ---------------------------------------------------------------------

  /** The sum of all velocities: the momentum of the balls, all of mass 1. */
  function TotalMomentum(s: seq<BallState>): Vec {
    if s == [] then Zero else Add(TotalMomentum(s[..|s| - 1]), s[|s| - 1].vel)
  }

  /** The sum of all squared speeds: twice the kinetic energy. */
  function TotalEnergy(s: seq<BallState>): real {
    if s == [] then 0.0 else TotalEnergy(s[..|s| - 1]) + LengthSq(s[|s| - 1].vel)
  }

  /** Replacing one velocity changes the totals by the difference. */
  lemma {:induction false} ReplaceVelocity(s: seq<BallState>, j: nat, v: Vec)
    requires j < |s|
    ensures TotalMomentum(s[j := s[j].(vel := v)])
         == Add(Sub(TotalMomentum(s), s[j].vel), v)
    ensures TotalEnergy(s[j := s[j].(vel := v)])
         == TotalEnergy(s) - LengthSq(s[j].vel) + LengthSq(v)
    decreases |s|
  {
    var t := s[j := s[j].(vel := v)];
    var n := |s| - 1;
    if j < n {
      assert t[..n] == s[..n][j := s[j].(vel := v)];
      ReplaceVelocity(s[..n], j, v);
    } else {
      assert t[..n] == s[..n];
    }
  }

  /** One ball's collision pass keeps the total momentum of the table and,
      with E = 1, its total kinetic energy. */
  lemma {:induction false} ContactsConserve(s: seq<BallState>, i: nat, k: nat)
    requires i < |s| && k <= |s| && Contacts(s, i, k).Some?
    ensures TotalMomentum(Contacts(s, i, k).value) == TotalMomentum(s)
    ensures TotalEnergy(Contacts(s, i, k).value) == TotalEnergy(s)
    decreases k
  {
    if k > 0 {
      ContactsConserve(s, i, k - 1);
      var t := Contacts(s, i, k - 1).value;
      var j := k - 1;
      if j != i && Near(t[i].pos, t[j].pos) && t[i].pos != t[j].pos {
        ExchangedConserves(t, i, j);
      }
    }
  }

  /** One velocity exchange keeps the total momentum and, with E = 1, the
      total kinetic energy. */
  lemma ExchangedConserves(t: seq<BallState>, i: nat, j: nat)
    requires i < |t| && j < |t| && i != j && t[i].pos != t[j].pos
    ensures TotalMomentum(Exchanged(t, i, j)) == TotalMomentum(t)
    ensures TotalEnergy(Exchanged(t, i, j)) == TotalEnergy(t)
  {
    var d := Sub(t[j].pos, t[i].pos);
    var v := Exchange(t[i].vel, t[j].vel, d, E);
    var t1 := t[i := t[i].(vel := v.0)];
    ReplaceVelocity(t, i, v.0);
    assert t1[j] == t[j];
    ReplaceVelocity(t1, j, v.1);
    ExchangeKeepsEnergy(t[i].vel, t[j].vel, d);
  }

  /** The totals depend on the velocities alone. */
  lemma {:induction false} TotalsOfVelocities(s: seq<BallState>, t: seq<BallState>)
    requires |s| == |t| && forall j :: 0 <= j < |s| ==> s[j].vel == t[j].vel
    ensures TotalMomentum(s) == TotalMomentum(t) && TotalEnergy(s) == TotalEnergy(t)
    decreases |s|
  {
    if s != [] {
      TotalsOfVelocities(s[..|s| - 1], t[..|t| - 1]);
    }
  }

  /** The whole of check_collisions keeps the table's kinetic energy: the
      pairwise exchanges (E = 1) keep it, and the cushions only flip signs. */
  lemma CheckCollisionsKeepsEnergy(s: seq<BallState>, i: nat)
    requires i < |s| && CheckCollisions(s, i).Some?
    ensures TotalEnergy(CheckCollisions(s, i).value) == TotalEnergy(s)
  {
    var r := CheckCollisions(s, i).value;
    if s[i].collided {
      TotalsOfVelocities(r, s);
    } else {
      var t := Contacts(s, i, |s|).value;
      ContactsConserve(s, i, |s|);
      var w := WallClamp(t[i]);
      ReplaceVelocity(t, i, w.vel);
      TotalsOfVelocities(r, t[i := t[i].(vel := w.vel)]);
    }
  }
}
