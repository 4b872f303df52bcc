/** Three-dimensional vectors over the reals. */
module Vectors {

  datatype Vec3 = Vec3(x: real, y: real, z: real) {
    function Plus(v: Vec3): Vec3 {
      Vec3(x + v.x, y + v.y, z + v.z)
    }

    function Minus(v: Vec3): Vec3 {
      Vec3(x - v.x, y - v.y, z - v.z)
    }

    function Scale(k: real): Vec3 {
      Vec3(k * x, k * y, k * z)
    }

    function NormSq(): real {
      x * x + y * y + z * z
    }
  }

  const ZERO := Vec3(0.0, 0.0, 0.0)

  function Dot(u: Vec3, v: Vec3): real {
    u.x * v.x + u.y * v.y + u.z * v.z
  }

  function DistSq(u: Vec3, v: Vec3): real {
    u.Minus(v).NormSq()
  }

  /** `distance(u, v) <= r`, free of square roots: a distance is never negative. */
  predicate Within(u: Vec3, v: Vec3, r: real) {
    r >= 0.0 && DistSq(u, v) <= r * r
  }

  lemma SquareNonNegative(a: real)
    ensures a * a >= 0.0
  {
  }

  lemma ProductSign(p: real, q: real)
    requires p >= 0.0 && q >= 0.0
    ensures p * q >= 0.0
    ensures p > 0.0 && q > 0.0 ==> p * q > 0.0
  {
  }

  lemma SquareMonotone(a: real, b: real)
    requires 0.0 <= a <= b
    ensures a * a <= b * b
  {
    var p, q := b - a, b + a;
    ProductSign(p, q);
    assert b * b - a * a == p * q;
  }

  /** Lagrange's identity, and with it Cauchy-Schwarz. */
  lemma CauchySchwarz(u: Vec3, v: Vec3)
    ensures Dot(u, v) * Dot(u, v) <= u.NormSq() * v.NormSq()
  {
    var a, b, c := u.x * v.y - u.y * v.x, u.x * v.z - u.z * v.x, u.y * v.z - u.z * v.y;
    assert u.NormSq() * v.NormSq() - Dot(u, v) * Dot(u, v) == a * a + b * b + c * c;
  }

  /** The triangle inequality, in squared form. */
  lemma TriangleInequality(u: Vec3, v: Vec3, a: real, b: real)
    requires a >= 0.0 && b >= 0.0
    requires u.NormSq() <= a * a && v.NormSq() <= b * b
    ensures u.Minus(v).NormSq() <= (a + b) * (a + b)
  {
    var d, ab := Dot(u, v), a * b;
    CauchySchwarz(u, v);
    assert d * d <= ab * ab by {
      ProductMonotone(u.NormSq(), a * a, v.NormSq(), b * b);
      assert (a * a) * (b * b) == ab * ab;
    }
    assert -d <= ab by {
      if -d > ab { SquareStrict(ab, -d); }
    }
    assert u.Minus(v).NormSq() == u.NormSq() + v.NormSq() - 2.0 * d;
    assert (a + b) * (a + b) == a * a + b * b + 2.0 * ab;
  }

  lemma ProductMonotone(a: real, b: real, c: real, d: real)
    requires 0.0 <= a <= b && 0.0 <= c <= d
    ensures a * c <= b * d
  {
    assert b * (d - c) >= 0.0 && (b - a) * c >= 0.0;
    assert b * d - a * c == b * (d - c) + (b - a) * c;
  }

  lemma SquareStrict(a: real, b: real)
    requires 0.0 <= a < b
    ensures a * a < b * b
  {
    var p, q := b - a, b + a;
    ProductSign(p, q);
    assert b * b - a * a == p * q;
  }
}
