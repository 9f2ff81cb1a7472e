/** Two-dimensional vectors over the reals, standing for pygame's Vector2.
    Lengths are never taken: every comparison against a length is made
    between squares, so no square root is needed. */
module Vectors {

  datatype Vec = Vec(x: real, y: real)

  const Zero: Vec := Vec(0.0, 0.0)

  function Add(u: Vec, v: Vec): Vec {
    Vec(u.x + v.x, u.y + v.y)
  }

  function Sub(u: Vec, v: Vec): Vec {
    Vec(u.x - v.x, u.y - v.y)
  }

  function Scale(k: real, v: Vec): Vec {
    Vec(k * v.x, k * v.y)
  }

  function Dot(u: Vec, v: Vec): real {
    u.x * v.x + u.y * v.y
  }

  /** The squared Euclidean length: never negative, and zero exactly for the
      zero vector. */
  function LengthSq(v: Vec): (r: real)
    ensures r >= 0.0
    ensures r == 0.0 <==> v == Zero
  {
    var px, py := v.x * v.x, v.y * v.y;
    SquareSign(v.x, px);
    SquareSign(v.y, py);
    px + py
  }

  /** The squared distance between two points: Ball.distance_to_ball, squared.
      It is zero exactly when the points coincide. */
  function DistanceSquared(p: Vec, q: Vec): (r: real)
    ensures r >= 0.0
    ensures r == 0.0 <==> p == q
  {
    LengthSq(Sub(p, q))
  }

  /** The distance is symmetric. */
  lemma DistanceSymmetric(p: Vec, q: Vec)
    ensures DistanceSquared(p, q) == DistanceSquared(q, p)
  {
    var a, b := p.x - q.x, p.y - q.y;
    assert (-a) * (-a) == a * a && (-b) * (-b) == b * b;
  }

  /** p is the square of a: never negative, positive unless a is zero. */
  lemma SquareSign(a: real, p: real)
    requires p == a * a
    ensures p >= 0.0
    ensures a != 0.0 ==> p > 0.0
  {
    if a > 0.0 {
      MulStrict(0.0, a, a, 0.0, p);
    } else if a < 0.0 {
      MulStrict(0.0, -a, -a, 0.0, p);
    }
  }

  /** Multiplying by a non-negative factor keeps an order (ac = a·c, bc = b·c). */
  lemma MulMonotone(a: real, b: real, c: real, ac: real, bc: real)
    requires a <= b && c >= 0.0
    requires ac == a * c && bc == b * c
    ensures ac <= bc
  {
    assert bc - ac == (b - a) * c;
  }

  /** Multiplying by a positive factor keeps a strict order (ac = a·c, bc = b·c). */
  lemma MulStrict(a: real, b: real, c: real, ac: real, bc: real)
    requires a < b && c > 0.0
    requires ac == a * c && bc == b * c
    ensures ac < bc
  {
    assert bc - ac == (b - a) * c;
  }

  /** A non-negative length compares with a non-negative bound exactly as its
      square compares with the bound's square. This is what allows
      `velocity.length() > 0.1` and `distance_to_ball(other) < 2*RADIUS` to be
      decided on squared quantities. */
  lemma LengthCompare(len: real, sq: real, bound: real)
    requires len >= 0.0 && bound >= 0.0
    requires len * len == sq
    ensures len < bound <==> sq < bound * bound
    ensures len > bound <==> sq > bound * bound
  {
    var bb, lb := bound * bound, len * bound;
    if len < bound {
      MulMonotone(len, bound, len, sq, lb);
      MulStrict(len, bound, bound, lb, bb);
    } else if len > bound {
      MulMonotone(bound, len, bound, bb, lb);
      MulStrict(bound, len, len, lb, sq);
    }
  }
}
