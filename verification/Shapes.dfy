/** The collision shapes: axis-aligned cubes and spheres, placed at a global position. */
module Shapes {
  import opened Vectors

  /** A cube carries its half lengths, a sphere its radius. */
  datatype Shape = Cube(size: Vec3) | Sphere(radius: real) {
    predicate WellFormed() {
      match this
      case Cube(s) => s.x >= 0.0 && s.y >= 0.0 && s.z >= 0.0
      case Sphere(r) => r >= 0.0
    }
  }

  datatype Placed = Placed(shape: Shape, center: Vec3)

  function Min(a: real, b: real): real {
    if a < b then a else b
  }

  function Max(a: real, b: real): real {
    if a > b then a else b
  }

  /** The shape's own point test. */
  predicate Contains(s: Placed, p: Vec3) {
    match s.shape
    case Cube(size) =>
      var lo, hi := s.center.Minus(size), s.center.Plus(size);
      lo.x <= p.x <= hi.x && lo.y <= p.y <= hi.y && lo.z <= p.z <= hi.z
    case Sphere(r) => Within(s.center, p, r)
  }

  function Clamp(v: real, lo: real, hi: real): real {
    Max(lo, Min(v, hi))
  }

  /** The point of a cube that is closest to `p`. */
  function Closest(cube: Placed, p: Vec3): Vec3
    requires cube.shape.Cube?
  {
    var lo, hi := cube.center.Minus(cube.shape.size), cube.center.Plus(cube.shape.size);
    Vec3(Clamp(p.x, lo.x, hi.x), Clamp(p.y, lo.y, hi.y), Clamp(p.z, lo.z, hi.z))
  }

  predicate CubesCollide(a: Placed, b: Placed)
    requires a.shape.Cube? && b.shape.Cube?
  {
    var lo, hi := a.center.Minus(a.shape.size), a.center.Plus(a.shape.size);
    var lo', hi' := b.center.Minus(b.shape.size), b.center.Plus(b.shape.size);
    && lo.x <= hi'.x && hi.x >= lo'.x
    && lo.y <= hi'.y && hi.y >= lo'.y
    && lo.z <= hi'.z && hi.z >= lo'.z
  }

  /** `a->is_colliding(b)`: dispatch on both kinds of shape. */
  predicate IsColliding(a: Placed, b: Placed) {
    match (a.shape, b.shape)
    case (Cube(_), Cube(_)) => CubesCollide(a, b)
    case (Cube(_), Sphere(r)) => Within(Closest(a, b.center), b.center, r)
    case (Sphere(r), Cube(_)) => Within(Closest(b, a.center), a.center, r)
    case (Sphere(r), Sphere(r')) => Within(a.center, b.center, r + r')
  }

  ghost predicate SharePoint(a: Placed, b: Placed) {
    exists p :: Contains(a, p) && Contains(b, p)
  }

  /** Every collision test answers exactly whether the two shapes have a point in common. */
  lemma CollidingMeansSharingAPoint(a: Placed, b: Placed)
    requires a.shape.WellFormed() && b.shape.WellFormed()
    ensures IsColliding(a, b) <==> SharePoint(a, b)
  {
    match (a.shape, b.shape)
    case (Cube(_), Cube(_)) => CubesShare(a, b);
    case (Cube(_), Sphere(_)) => CubeSphereShare(a, b);
    case (Sphere(_), Cube(_)) =>
      CubeSphereShare(b, a);
      assert SharePoint(a, b) <==> SharePoint(b, a);
    case (Sphere(_), Sphere(_)) => SpheresShare(a, b);
  }

  /** So the test does not depend on which of the two shapes is asked. */
  lemma CollidingIsSymmetric(a: Placed, b: Placed)
    requires a.shape.WellFormed() && b.shape.WellFormed()
    ensures IsColliding(a, b) <==> IsColliding(b, a)
  {
    CollidingMeansSharingAPoint(a, b);
    CollidingMeansSharingAPoint(b, a);
  }

  lemma CubesShare(a: Placed, b: Placed)
    requires a.shape.Cube? && b.shape.Cube? && a.shape.WellFormed() && b.shape.WellFormed()
    ensures CubesCollide(a, b) <==> SharePoint(a, b)
  {
    if CubesCollide(a, b) {
      var lo, lo' := a.center.Minus(a.shape.size), b.center.Minus(b.shape.size);
      var p := Vec3(Max(lo.x, lo'.x), Max(lo.y, lo'.y), Max(lo.z, lo'.z));
      assert Contains(a, p) && Contains(b, p);
    }
  }

  lemma ClampIsNearest(v: real, lo: real, hi: real, q: real)
    requires lo <= q <= hi
    ensures lo <= Clamp(v, lo, hi) <= hi
    ensures (Clamp(v, lo, hi) - v) * (Clamp(v, lo, hi) - v) <= (q - v) * (q - v)
  {
    var c := Clamp(v, lo, hi);
    if c <= v { if c < v { SquareMonotone(v - c, v - q); } } else { SquareMonotone(c - v, q - v); }
  }

  /** The clamped point is at least as close as any point of the cube. */
  lemma ClosestIsClosest(cube: Placed, c: Vec3, p: Vec3)
    requires cube.shape.Cube? && Contains(cube, p)
    ensures DistSq(Closest(cube, c), c) <= DistSq(p, c)
  {
    var lo, hi := cube.center.Minus(cube.shape.size), cube.center.Plus(cube.shape.size);
    ClampIsNearest(c.x, lo.x, hi.x, p.x);
    ClampIsNearest(c.y, lo.y, hi.y, p.y);
    ClampIsNearest(c.z, lo.z, hi.z, p.z);
    SumsOfSquares(Closest(cube, c).Minus(c), p.Minus(c));
  }

  lemma SumsOfSquares(u: Vec3, v: Vec3)
    requires u.x * u.x <= v.x * v.x && u.y * u.y <= v.y * v.y && u.z * u.z <= v.z * v.z
    ensures u.NormSq() <= v.NormSq()
  {
  }

  lemma ClosestIsInside(cube: Placed, c: Vec3)
    requires cube.shape.Cube? && cube.shape.WellFormed()
    ensures Contains(cube, Closest(cube, c))
  {
    var p := cube.center;
    var lo, hi := p.Minus(cube.shape.size), p.Plus(cube.shape.size);
    ClampIsNearest(c.x, lo.x, hi.x, p.x);
    ClampIsNearest(c.y, lo.y, hi.y, p.y);
    ClampIsNearest(c.z, lo.z, hi.z, p.z);
  }

  lemma CubeSphereShare(cube: Placed, ball: Placed)
    requires cube.shape.Cube? && ball.shape.Sphere? && cube.shape.WellFormed() && ball.shape.WellFormed()
    ensures Within(Closest(cube, ball.center), ball.center, ball.shape.radius) <==> SharePoint(cube, ball)
    ensures SharePoint(cube, ball) <==> SharePoint(ball, cube)
  {
    var near, c, r := Closest(cube, ball.center), ball.center, ball.shape.radius;
    if Within(near, c, r) {
      ClosestIsInside(cube, c);
      WithinSymmetric(near, c, r);
      assert Contains(ball, near);
    }
    if SharePoint(cube, ball) {
      var p :| Contains(cube, p) && Contains(ball, p);
      ClosestIsClosest(cube, c, p);
      WithinSymmetric(p, c, r);
    }
    if p :| Contains(cube, p) && Contains(ball, p) {
      assert SharePoint(ball, cube);
    }
  }

  lemma WithinSymmetric(u: Vec3, v: Vec3, r: real)
    ensures Within(u, v, r) <==> Within(v, u, r)
  {
    DistSqSymmetric(u, v);
  }

  lemma DistSqSymmetric(u: Vec3, v: Vec3)
    ensures DistSq(u, v) == DistSq(v, u)
  {
    var d := u.Minus(v);
    assert v.Minus(u) == Vec3(-d.x, -d.y, -d.z);
  }

  lemma SpheresShare(a: Placed, b: Placed)
    requires a.shape.Sphere? && b.shape.Sphere? && a.shape.WellFormed() && b.shape.WellFormed()
    ensures Within(a.center, b.center, a.shape.radius + b.shape.radius) <==> SharePoint(a, b)
  {
    var r, r' := a.shape.radius, b.shape.radius;
    if Within(a.center, b.center, r + r') {
      var p := TouchPoint(a.center, b.center, r, r');
      assert Contains(a, p) && Contains(b, p);
    }
    if SharePoint(a, b) {
      var p :| Contains(a, p) && Contains(b, p);
      MeetingPoint(a.center, b.center, p, r, r');
    }
  }

  lemma MeetingPoint(c: Vec3, c': Vec3, p: Vec3, r: real, r': real)
    requires Within(c, p, r) && Within(c', p, r')
    ensures Within(c, c', r + r')
  {
    TriangleInequality(c.Minus(p), c'.Minus(p), r, r');
    assert c.Minus(p).Minus(c'.Minus(p)) == c.Minus(c');
  }

  /** The point that divides the segment between the centers in the ratio of the radii. */
  lemma TouchPoint(c: Vec3, c': Vec3, r: real, r': real) returns (p: Vec3)
    requires r >= 0.0 && r' >= 0.0 && Within(c, c', r + r')
    ensures Within(c, p, r) && Within(c', p, r')
  {
    if r + r' == 0.0 {
      p := c;
      WithinSymmetric(c, c', r');
      assert c.Minus(c) == ZERO;
    } else {
      p := DividingPoint(c, c', r, r');
    }
  }

  lemma DividingPoint(c: Vec3, c': Vec3, r: real, r': real) returns (p: Vec3)
    requires r >= 0.0 && r' >= 0.0 && r + r' > 0.0 && Within(c, c', r + r')
    ensures Within(c, p, r) && Within(c', p, r')
  {
    var s := r + r';
    var t, d := r / s, c'.Minus(c);
    p := c.Plus(d.Scale(t));
    DistSqSymmetric(c, c');
    ScaledDistance(d, t, r, s);
    ScaledDistance(d, 1.0 - t, r', s);
    DistSqSymmetric(p, c);
    assert p.Minus(c) == d.Scale(t);
    assert c'.Minus(p) == d.Scale(1.0 - t);
  }

  lemma NormSqScale(v: Vec3, k: real)
    ensures v.Scale(k).NormSq() == k * k * v.NormSq()
  {
  }

  lemma ScaledDistance(d: Vec3, t: real, r: real, s: real)
    requires s > 0.0 && t == r / s && d.NormSq() <= s * s
    ensures d.Scale(t).NormSq() <= r * r
  {
    NormSqScale(d, t);
    assert t * s == r;
    SquareNonNegative(t);
    ProductMonotone(t * t, t * t, d.NormSq(), s * s);
    assert t * t * (s * s) == (t * s) * (t * s);
  }

  /** The condition is needed: a negative radius lets two spheres "collide" that share no point. */
  lemma NegativeRadiusSharesNothing()
    ensures var a, b := Placed(Sphere(-1.0), ZERO), Placed(Sphere(3.0), ZERO);
            IsColliding(a, b) && !SharePoint(a, b)
  {
  }
}
