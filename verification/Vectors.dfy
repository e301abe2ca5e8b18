/** Three-component vectors over exact reals, as used by the magnetometer library.

  The C code compares distances after taking a square root. Every such comparison is between
  non-negative quantities, so the model compares squared distances and stores squared radii. */
module Vectors {

  datatype Vec = Vec(x: real, y: real, z: real)

  const ZERO: Vec := Vec(0.0, 0.0, 0.0)

  function Plus(a: Vec, b: Vec): Vec {
    Vec(a.x + b.x, a.y + b.y, a.z + b.z)
  }

  function Minus(a: Vec, b: Vec): Vec {
    Vec(a.x - b.x, a.y - b.y, a.z - b.z)
  }

  function Dot(a: Vec, b: Vec): real {
    a.x * b.x + a.y * b.y + a.z * b.z
  }

  function Cross(a: Vec, b: Vec): Vec {
    Vec(a.y * b.z - a.z * b.y, a.z * b.x - a.x * b.z, a.x * b.y - a.y * b.x)
  }

  function Norm2(a: Vec): real {
    Dot(a, a)
  }

  /** The square of the distance computed by `CalcR`. */
  function Dist2(a: Vec, b: Vec): real {
    Norm2(Minus(a, b))
  }

  /** The determinant of the matrix with rows a, b, c: six times the volume of the tetrahedron they span. */
  function Triple(a: Vec, b: Vec, c: Vec): real {
    Dot(a, Cross(b, c))
  }

  function Abs(x: real): real {
    if x < 0.0 then -x else x
  }

  lemma SquareNonNegative(x: real)
    ensures x * x >= 0.0
    ensures x * x == 0.0 ==> x == 0.0
  {
    if x != 0.0 && x * x == 0.0 {
      ProductZero(x, x);
    }
  }

  lemma NormNonNegative(a: Vec)
    ensures Norm2(a) >= 0.0
    ensures Norm2(a) == 0.0 <==> a == ZERO
  {
    SquareNonNegative(a.x);
    SquareNonNegative(a.y);
    SquareNonNegative(a.z);
  }

  lemma ProductZero(a: real, b: real)
    requires a * b == 0.0 && a != 0.0
    ensures b == 0.0
  {
  }

  /** Products of equal factors are equal: lets the verifier expand a named product into monomials. */
  lemma Expand(a: real, a': real, b: real, b': real)
    requires a == a' && b == b'
    ensures a * b == a' * b'
  {
  }

  lemma TripleExpanded(a: Vec, b: Vec, c: Vec)
    ensures Triple(a, b, c)
         == a.x * (b.y * c.z - b.z * c.y) + a.y * (b.z * c.x - b.x * c.z) + a.z * (b.x * c.y - b.y * c.x)
  {
    Expand(a.x, a.x, Cross(b, c).x, b.y * c.z - b.z * c.y);
    Expand(a.y, a.y, Cross(b, c).y, b.z * c.x - b.x * c.z);
    Expand(a.z, a.z, Cross(b, c).z, b.x * c.y - b.y * c.x);
  }

  /** A vector orthogonal to three independent vectors is zero. */
  lemma OrthogonalToAllIsZero(a: Vec, b: Vec, c: Vec, u: Vec)
    requires Dot(a, u) == 0.0 && Dot(b, u) == 0.0 && Dot(c, u) == 0.0
    ensures Triple(a, b, c) == 0.0 || u == ZERO
  {
  }

  lemma DotDifference(a: Vec, c: Vec, c': Vec)
    ensures Dot(a, Minus(c, c')) == Dot(a, c) - Dot(a, c')
  {
  }

  lemma DotSum(a: Vec, c: Vec, c': Vec)
    ensures Dot(a, Plus(c, c')) == Dot(a, c) + Dot(a, c')
  {
  }

  lemma DotCommutes(a: Vec, b: Vec)
    ensures Dot(a, b) == Dot(b, a)
  {
  }

  /** A vector other than zero that is orthogonal to a given one. */
  lemma OrthogonalVector(a: Vec) returns (u: Vec)
    ensures u != ZERO && Dot(a, u) == 0.0
  {
    u := if a.x != 0.0 || a.y != 0.0 then Vec(-a.y, a.x, 0.0) else Vec(1.0, 0.0, 0.0);
    Expand(a.x, a.x, -a.y, -a.y);
  }

  /** What is orthogonal to a vector is orthogonal to its multiples. */
  lemma OrthogonalToParallel(a: Vec, b: Vec, u: Vec)
    requires a != ZERO && Cross(a, b) == ZERO && Dot(a, u) == 0.0
    ensures Dot(b, u) == 0.0
  {
    assert a.y * b.z == a.z * b.y && a.z * b.x == a.x * b.z && a.x * b.y == a.y * b.x;
    if a.x != 0.0 {
      Multiple(a.x, a.y, a.z, b.x, b.y, b.z, u.x, u.y, u.z);
    } else if a.y != 0.0 {
      Multiple(a.y, a.z, a.x, b.y, b.z, b.x, u.y, u.z, u.x);
    } else {
      Multiple(a.z, a.x, a.y, b.z, b.x, b.y, u.z, u.x, u.y);
    }
  }

  lemma Multiple(x: real, y: real, z: real, x': real, y': real, z': real, u: real, v: real, w: real)
    requires x != 0.0 && x * y' == y * x' && x * z' == z * x' && x * u + y * v + z * w == 0.0
    ensures x' * u + y' * v + z' * w == 0.0
  {
    var t := x' / x;
    assert x' == t * x && y' == t * y && z' == t * z;
    assert x' * u + y' * v + z' * w == t * (x * u + y * v + z * w);
  }

  /** Two sequences that differ by a constant vector. */
  ghost predicate Shifted(a: seq<Vec>, b: seq<Vec>, t: Vec) {
    |a| == |b| && forall i :: 0 <= i < |a| ==> b[i] == Plus(a[i], t)
  }

  lemma DifferenceOfShifted(a: Vec, c: Vec, t: Vec)
    ensures Minus(Plus(a, t), Plus(c, t)) == Minus(a, c)
  {
  }
}
