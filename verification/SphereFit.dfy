/** The sphere through four points, solved by elimination without pivoting (akfs_aoc.c, `From4Points2Sphere`). */
module SphereFit {
  import opened Options
  import opened Vectors

  /** `AKFS_EPSILON`: the distance from 1 to the next single-precision number. */
  const EPSILON: real := 1.0 / 8388608.0

  /** The return code and outputs of `From4Points2Sphere`; r2 is the square of the reported radius. */
  datatype Fit = NoFit | Sphere(center: Vec, r2: real)

  /** The planes equidistant from points 0, 1, 2 and point 3: rows d0, d1, d2 with right-hand sides q0, q1, q2. */
  datatype System = System(d0: Vec, d1: Vec, d2: Vec, q0: real, q1: real, q2: real)

  /** Half the difference of the squared lengths of two points. */
  function HalfDifference(p: Vec, o: Vec): real {
    0.5 * (Norm2(p) - Norm2(o))
  }

  function PlaneSystem(p: seq<Vec>): System
    requires |p| == 4
  {
    System(Minus(p[0], p[3]), Minus(p[1], p[3]), Minus(p[2], p[3]),
           HalfDifference(p[0], p[3]), HalfDifference(p[1], p[3]), HalfDifference(p[2], p[3]))
  }

  ghost predicate Solves(s: System, c: Vec) {
    Dot(s.d0, c) == s.q0 && Dot(s.d1, c) == s.q1 && Dot(s.d2, c) == s.q2
  }

  /** The coefficients the code calls A to G. */
  datatype Coefficients = Coefficients(a: real, b: real, c: real, d: real, e: real, f: real, g: real)

  function CoefficientsOf(s: System): Coefficients {
    Coefficients(
      s.d0.x * s.d2.z - s.d0.z * s.d2.x,
      s.d0.y * s.d2.x - s.d0.x * s.d2.y,
      s.d0.x * s.d2.y - s.d0.y * s.d2.x,
      s.d0.x * s.q2 - s.d2.x * s.q0,
      s.d0.x * s.d1.y - s.d0.y * s.d1.x,
      s.d1.x * s.d0.z - s.d0.x * s.d1.z,
      s.d0.x * s.q1 - s.d1.x * s.q0)
  }

  function DividendZ(k: Coefficients): real {
    k.d * k.e + k.b * k.g
  }

  function DivisorZ(k: Coefficients): real {
    k.c * k.f + k.a * k.e
  }

  function DividendY(k: Coefficients, z: real): real {
    k.f * z + k.g
  }

  function DividendX(d0: Vec, q0: real, y: real, z: real): real {
    q0 - d0.y * y - d0.z * z
  }

  /** The three divisions, without pivoting: z first, then y, then x, each guarded by a threshold. */
  function BackSubstitution(d0: Vec, q0: real, k: Coefficients): Option<Vec> {
    if Abs(DivisorZ(k)) < EPSILON then None else
    var z := DividendZ(k) / DivisorZ(k);
    if Abs(k.e) < EPSILON then None else
    var y := DividendY(k, z) / k.e;
    if Abs(d0.x) < EPSILON then None else
    Some(Vec(DividendX(d0, q0, y, z) / d0.x, y, z))
  }

  function Eliminate(s: System): Option<Vec> {
    BackSubstitution(s.d0, s.q0, CoefficientsOf(s))
  }

  lemma QuotientTimes(n: real, d: real)
    requires d != 0.0
    ensures (n / d) * d == n
  {
  }

  /** The second pivot: a 2 by 2 minor of the difference rows. */
  function Minor(d0: Vec, d1: Vec): real {
    d0.x * d1.y - d0.y * d1.x
  }

  function PivotTimesDeterminant(d0: Vec, d1: Vec, d2: Vec): real {
    d0.x * Triple(d0, d1, d2)
  }

  /** The first divisor is the first pivot times the determinant. */
  lemma FirstDivisor(s: System, k: Coefficients)
    requires k == CoefficientsOf(s)
    ensures DivisorZ(k) == PivotTimesDeterminant(s.d0, s.d1, s.d2)
  {
    hide Triple;
    var d0, d1, d2 := s.d0, s.d1, s.d2;
    TripleExpanded(d0, d1, d2);
    DivisorPolynomial(d0.x, d0.y, d0.z, d1.x, d1.y, d1.z, d2.x, d2.y, d2.z, k.a, k.c, k.e, k.f, Triple(d0, d1, d2));
  }

  lemma DivisorPolynomial(x0: real, y0: real, z0: real, x1: real, y1: real, z1: real, x2: real, y2: real, z2: real,
                          a: real, c: real, e: real, f: real, t: real)
    requires a == x0 * z2 - z0 * x2 && c == x0 * y2 - y0 * x2 && e == x0 * y1 - y0 * x1 && f == x1 * z0 - x0 * z1
    requires t == x0 * (y1 * z2 - z1 * y2) + y0 * (z1 * x2 - x1 * z2) + z0 * (x1 * y2 - y1 * x2)
    ensures c * f + a * e == x0 * t
  {
    Expand(c, x0 * y2 - y0 * x2, f, x1 * z0 - x0 * z1);
    Expand(a, x0 * z2 - z0 * x2, e, x0 * y1 - y0 * x1);
    Expand(x0, x0, t, x0 * (y1 * z2 - z1 * y2) + y0 * (z1 * x2 - x1 * z2) + z0 * (x1 * y2 - y1 * x2));
  }

  lemma FirstRow(s: System, c: Vec)
    requires c.x * s.d0.x == DividendX(s.d0, s.q0, c.y, c.z)
    ensures Dot(s.d0, c) == s.q0
  {
  }

  lemma SecondRow(s: System, k: Coefficients, c: Vec)
    requires k == CoefficientsOf(s) && s.d0.x != 0.0
    requires c.x * s.d0.x == DividendX(s.d0, s.q0, c.y, c.z)
    requires c.y * k.e == DividendY(k, c.z)
    ensures Dot(s.d1, c) == s.q1
  {
    var d0, d1 := s.d0, s.d1;
    Expand(c.y, c.y, k.e, d0.x * d1.y - d0.y * d1.x);
    Expand(k.f, d1.x * d0.z - d0.x * d1.z, c.z, c.z);
    Expand(d1.x, d1.x, c.x * d0.x, s.q0 - d0.y * c.y - d0.z * c.z);
    assert d0.x * (d1.x * c.x + d1.y * c.y + d1.z * c.z - s.q1) == 0.0;
    ProductZero(d0.x, d1.x * c.x + d1.y * c.y + d1.z * c.z - s.q1);
  }

  lemma EliminatedRow(k: Coefficients, y: real, z: real)
    requires k.e != 0.0 && k.b == -k.c && y * k.e == DividendY(k, z) && z * DivisorZ(k) == DividendZ(k)
    ensures k.c * y + k.a * z == k.d
  {
    Expand(z, z, DivisorZ(k), k.c * k.f + k.a * k.e);
    Expand(k.b, -k.c, k.g, k.g);
    Expand(k.c, k.c, y * k.e, k.f * z + k.g);
    assert k.e * (k.c * y + k.a * z - k.d) == 0.0;
    ProductZero(k.e, k.c * y + k.a * z - k.d);
  }

  lemma ThirdRow(s: System, k: Coefficients, c: Vec)
    requires k == CoefficientsOf(s) && s.d0.x != 0.0 && k.e != 0.0
    requires c.x * s.d0.x == DividendX(s.d0, s.q0, c.y, c.z)
    requires c.y * k.e == DividendY(k, c.z)
    requires c.z * DivisorZ(k) == DividendZ(k)
    ensures Dot(s.d2, c) == s.q2
  {
    var d0, d2 := s.d0, s.d2;
    assert k.b == -k.c;
    EliminatedRow(k, c.y, c.z);
    Expand(k.c, d0.x * d2.y - d0.y * d2.x, c.y, c.y);
    Expand(k.a, d0.x * d2.z - d0.z * d2.x, c.z, c.z);
    Expand(d2.x, d2.x, c.x * d0.x, s.q0 - d0.y * c.y - d0.z * c.z);
    assert d0.x * (d2.x * c.x + d2.y * c.y + d2.z * c.z - s.q2) == 0.0;
    ProductZero(d0.x, d2.x * c.x + d2.y * c.y + d2.z * c.z - s.q2);
  }

  lemma EliminationEquations(s: System, k: Coefficients, c: Vec)
    requires k == CoefficientsOf(s) && Eliminate(s) == Some(c)
    ensures s.d0.x != 0.0 && k.e != 0.0 && DivisorZ(k) != 0.0
    ensures c.z * DivisorZ(k) == DividendZ(k)
    ensures c.y * k.e == DividendY(k, c.z)
    ensures c.x * s.d0.x == DividendX(s.d0, s.q0, c.y, c.z)
  {
    QuotientTimes(DividendZ(k), DivisorZ(k));
    QuotientTimes(DividendY(k, c.z), k.e);
    QuotientTimes(DividendX(s.d0, s.q0, c.y, c.z), s.d0.x);
  }

  lemma EliminationSolves(s: System, c: Vec)
    requires Eliminate(s) == Some(c)
    ensures Solves(s, c)
    ensures Triple(s.d0, s.d1, s.d2) != 0.0
  {
    var k := CoefficientsOf(s);
    hide DividendX, DividendY, DividendZ, Dot, CoefficientsOf;
    EliminationEquations(s, k, c);
    hide DivisorZ, Eliminate;
    FirstDivisor(s, k);
    FirstRow(s, c);
    SecondRow(s, k, c);
    ThirdRow(s, k, c);
  }

  function FitSphere(p: seq<Vec>): Fit
    requires |p| == 4
  {
    match Eliminate(PlaneSystem(p))
    case None => NoFit
    case Some(c) => Sphere(c, Dist2(p[0], c))
  }

  ghost predicate Equidistant(p: seq<Vec>, c: Vec) {
    forall i, j :: 0 <= i < |p| && 0 <= j < |p| ==> Dist2(p[i], c) == Dist2(p[j], c)
  }

  /** The determinant that decides whether four points lie in a plane. */
  function Volume(p: seq<Vec>): real
    requires |p| == 4
  {
    Triple(Minus(p[0], p[3]), Minus(p[1], p[3]), Minus(p[2], p[3]))
  }

  lemma BisectorPlane(p: Vec, o: Vec, c: Vec)
    ensures Dist2(p, c) - Dist2(o, c) == 2.0 * (HalfDifference(p, o) - Dot(Minus(p, o), c))
  {
  }

  lemma EquidistantIffSolves(p: seq<Vec>, c: Vec)
    requires |p| == 4
    ensures Equidistant(p, c) <==> Solves(PlaneSystem(p), c)
  {
    hide Dist2, HalfDifference, Dot, Minus;
    BisectorPlane(p[0], p[3], c);
    BisectorPlane(p[1], p[3], c);
    BisectorPlane(p[2], p[3], c);
    if Equidistant(p, c) {
      assert Dist2(p[0], c) == Dist2(p[3], c) == Dist2(p[1], c) == Dist2(p[2], c);
    }
  }

  /** Moving an equidistant centre orthogonally to the plane of the points keeps it equidistant. */
  lemma EquidistantAlongNormal(p: seq<Vec>, c: Vec, u: Vec)
    requires |p| == 4 && Equidistant(p, c)
    requires forall i :: 0 <= i < 3 ==> Dot(Minus(p[i], p[3]), u) == 0.0
    ensures Equidistant(p, Plus(c, u))
  {
    hide Dist2, HalfDifference, Dot, Equidistant, Minus, Plus;
    EquidistantIffSolves(p, c);
    EquidistantIffSolves(p, Plus(c, u));
    DotSum(Minus(p[0], p[3]), c, u);
    DotSum(Minus(p[1], p[3]), c, u);
    DotSum(Minus(p[2], p[3]), c, u);
  }

  /** Four points that are not coplanar have at most one equidistant centre. */
  lemma EquidistantCentreIsUnique(p: seq<Vec>, c: Vec, c': Vec)
    requires |p| == 4 && Volume(p) != 0.0
    requires Equidistant(p, c) && Equidistant(p, c')
    ensures c == c'
  {
    hide Dist2, HalfDifference, Dot, Triple, Equidistant;
    EquidistantIffSolves(p, c);
    EquidistantIffSolves(p, c');
    var s := PlaneSystem(p);
    DotDifference(s.d0, c, c');
    DotDifference(s.d1, c, c');
    DotDifference(s.d2, c, c');
    OrthogonalToAllIsZero(s.d0, s.d1, s.d2, Minus(c, c'));
  }

  /** A successful fit is the circumscribed sphere, and the only one. */
  lemma FitIsTheSphere(p: seq<Vec>)
    requires |p| == 4 && FitSphere(p).Sphere?
    ensures forall i :: 0 <= i < 4 ==> Dist2(p[i], FitSphere(p).center) == FitSphere(p).r2
    ensures Volume(p) != 0.0
    ensures forall c :: Equidistant(p, c) ==> c == FitSphere(p).center
  {
    var c := FitSphere(p).center;
    EliminationSolves(PlaneSystem(p), c);
    EquidistantIffSolves(p, c);
    forall c' | Equidistant(p, c')
      ensures c' == c
    {
      EquidistantCentreIsUnique(p, c', c);
    }
  }

  /** A fitted sphere with a known equidistant point. */
  lemma FitWithKnownCenter(p: seq<Vec>, m: Vec)
    requires |p| == 4 && FitSphere(p).Sphere? && Equidistant(p, m)
    ensures FitSphere(p) == Sphere(m, Dist2(p[0], m))
  {
    hide Dist2;
    FitIsTheSphere(p);
  }

  /** When the elimination gives up, in terms of the three difference rows. */
  predicate PivotTooSmall(d0: Vec, d1: Vec, d2: Vec) {
    var least := 1.0 / 8388608.0;
    || Abs(d0.x) < least
    || Abs(d0.x * d1.y - d0.y * d1.x) < least
    || Abs(d0.x * Triple(d0, d1, d2)) < least
  }

  lemma BackSubstitutionFailsExactlyWhen(d0: Vec, q0: real, k: Coefficients)
    ensures BackSubstitution(d0, q0, k) == None <==>
            Abs(d0.x) < EPSILON || Abs(k.e) < EPSILON || Abs(DivisorZ(k)) < EPSILON
  {
  }

  lemma EliminateFailsExactlyWhen(s: System)
    ensures Eliminate(s) == None <==> PivotTooSmall(s.d0, s.d1, s.d2)
  {
    var k := CoefficientsOf(s);
    FirstDivisor(s, k);
    assert k.e == Minor(s.d0, s.d1);
    BackSubstitutionFailsExactlyWhen(s.d0, s.q0, k);
  }

  /** The fit is refused exactly when a pivot is below the threshold. The first divisor is the first pivot
    times the determinant, so points in general position are refused whenever points 0 and 3 share an x. */
  lemma FitFailsExactlyWhen(p: seq<Vec>)
    requires |p| == 4
    ensures FitSphere(p) == NoFit <==> PivotTooSmall(Minus(p[0], p[3]), Minus(p[1], p[3]), Minus(p[2], p[3]))
  {
    EliminateFailsExactlyWhen(PlaneSystem(p));
  }

  /** Points 0 and 3 in a common plane of constant x are refused, whatever the other two are. */
  lemma SharedFirstCoordinateIsRefused(p: seq<Vec>)
    requires |p| == 4 && p[0].x == p[3].x
    ensures FitSphere(p) == NoFit
  {
    FitFailsExactlyWhen(p);
  }

  /** Not every tetrahedron is fitted: these four points lie on a sphere and are not coplanar. */
  lemma CornerIsRefused()
    ensures exists p: seq<Vec>, c: Vec :: |p| == 4 && Volume(p) != 0.0 && Equidistant(p, c) && FitSphere(p) == NoFit
  {
    hide *;
    var p := [Vec(0.0, 20.0, 0.0), Vec(20.0, 0.0, 0.0), Vec(0.0, 0.0, 20.0), Vec(0.0, 0.0, 0.0)];
    CornerIsEquidistant(p, Vec(10.0, 10.0, 10.0));
    SharedFirstCoordinateIsRefused(p);
  }

  lemma CornerDistances(m: Vec)
    requires m == Vec(10.0, 10.0, 10.0)
    ensures Dist2(Vec(0.0, 20.0, 0.0), m) == 300.0 && Dist2(Vec(20.0, 0.0, 0.0), m) == 300.0
    ensures Dist2(Vec(0.0, 0.0, 20.0), m) == 300.0 && Dist2(Vec(0.0, 0.0, 0.0), m) == 300.0
    ensures Triple(Vec(0.0, 20.0, 0.0), Vec(20.0, 0.0, 0.0), Vec(0.0, 0.0, 20.0)) == -8000.0
  {
  }

  lemma CornerIsEquidistant(p: seq<Vec>, m: Vec)
    requires p == [Vec(0.0, 20.0, 0.0), Vec(20.0, 0.0, 0.0), Vec(0.0, 0.0, 20.0), Vec(0.0, 0.0, 0.0)]
    requires m == Vec(10.0, 10.0, 10.0)
    ensures Volume(p) == -8000.0 && Equidistant(p, m)
  {
    assert Minus(p[0], p[3]) == p[0] && Minus(p[1], p[3]) == p[1] && Minus(p[2], p[3]) == p[2];
    hide Dist2, Triple, Minus;
    CornerDistances(m);
  }

  /** The order of the points matters: the same four points are fitted when the first two are exchanged. */
  lemma SwappedCornerIsFitted(q: seq<Vec>)
    requires q == [Vec(20.0, 0.0, 0.0), Vec(0.0, 20.0, 0.0), Vec(0.0, 0.0, 20.0), Vec(0.0, 0.0, 0.0)]
    ensures FitSphere(q).Sphere?
  {
    assert Minus(q[0], q[3]) == q[0] && Minus(q[1], q[3]) == q[1] && Minus(q[2], q[3]) == q[2];
    hide FitSphere, Minus, Volume;
    SwappedPivots(q[0], q[1], q[2]);
    hide PivotTooSmall;
    FitFailsExactlyWhen(q);
  }

  lemma SwappedPivots(a: Vec, b: Vec, c: Vec)
    requires a == Vec(20.0, 0.0, 0.0) && b == Vec(0.0, 20.0, 0.0) && c == Vec(0.0, 0.0, 20.0)
    ensures !PivotTooSmall(a, b, c)
  {
    assert Triple(a, b, c) == 8000.0;
    Expand(a.x, 20.0, Triple(a, b, c), 8000.0);
    assert Minor(a, b) == 400.0 && PivotTimesDeterminant(a, b, c) == 160000.0;
  }

  lemma DistanceOfShifted(a: Vec, c: Vec, t: Vec)
    ensures Dist2(Plus(a, t), Plus(c, t)) == Dist2(a, c)
  {
    DifferenceOfShifted(a, c, t);
  }

  lemma ShiftedStaysEquidistant(p: seq<Vec>, p': seq<Vec>, c: Vec, t: Vec)
    requires Shifted(p, p', t)
    requires Equidistant(p, c)
    ensures Equidistant(p', Plus(c, t))
  {
    forall i | 0 <= i < |p|
      ensures Dist2(p'[i], Plus(c, t)) == Dist2(p[i], c)
    {
      DistanceOfShifted(p[i], c, t);
    }
  }

  /** Translating the points translates the fit and changes neither its success nor its radius. */
  lemma FitOfShifted(p: seq<Vec>, p': seq<Vec>, t: Vec)
    requires |p| == 4 && Shifted(p, p', t)
    ensures FitSphere(p')
         == if FitSphere(p).NoFit? then NoFit else Sphere(Plus(FitSphere(p).center, t), FitSphere(p).r2)
  {
    assert Minus(p'[0], p'[3]) == Minus(p[0], p[3]);
    assert Minus(p'[1], p'[3]) == Minus(p[1], p[3]);
    assert Minus(p'[2], p'[3]) == Minus(p[2], p[3]);
    FitFailsExactlyWhen(p);
    FitFailsExactlyWhen(p');
    if FitSphere(p).Sphere? {
      var c := FitSphere(p).center;
      FitIsTheSphere(p);
      FitIsTheSphere(p');
      ShiftedStaysEquidistant(p, p', c, t);
      DistanceOfShifted(p[0], c, t);
    }
  }

  /** Points of a sphere are at most a diameter apart. */
  lemma ChordAtMostDiameter(p: Vec, q: Vec, c: Vec, r2: real)
    requires Dist2(p, c) == r2 && Dist2(q, c) == r2
    ensures Dist2(p, q) <= 4.0 * r2
  {
    var u, v := Minus(p, c), Minus(q, c);
    assert Minus(p, q) == Minus(u, v);
    NormNonNegative(Plus(u, v));
    assert Norm2(Minus(u, v)) + Norm2(Plus(u, v)) == 2.0 * Norm2(u) + 2.0 * Norm2(v);
  }

  /** `From4Points2Sphere`: a loop fills in the differences and right-hand sides, then three divisions. */
  method From4Points2Sphere(points: array<Vec>) returns (fit: Fit)
    requires points.Length == 4
    ensures fit == FitSphere(points[..])
  {
    var dif := new Vec[3];
    var r2 := new real[3];
    for i := 0 to 3
      invariant forall k :: 0 <= k < i ==> dif[k] == Minus(points[k], points[3])
      invariant forall k :: 0 <= k < i ==> r2[k] == HalfDifference(points[k], points[3])
    {
      dif[i] := Minus(points[i], points[3]);
      r2[i] := RightHandSide(points[i], points[3]);
    }
    assert PlaneSystem(points[..]) == System(dif[0], dif[1], dif[2], r2[0], r2[1], r2[2]);
    var center := SolveByElimination(dif[0], dif[1], dif[2], r2[0], r2[1], r2[2]);
    match center
    case None => fit := NoFit;
    case Some(c) => fit := Sphere(c, Dist2(points[0], c));
  }

  /** The inner loop over the components. */
  method RightHandSide(p: Vec, o: Vec) returns (q: real)
    ensures q == HalfDifference(p, o)
  {
    q := p.x * p.x - o.x * o.x;
    q := q + (p.y * p.y - o.y * o.y);
    q := q + (p.z * p.z - o.z * o.z);
    q := q * 0.5;
  }

  /** The straight-line part: the center is computed z first, then y, then x, with a test before each division. */
  method SolveByElimination(d0: Vec, d1: Vec, d2: Vec, q0: real, q1: real, q2: real) returns (center: Option<Vec>)
    ensures center == Eliminate(System(d0, d1, d2, q0, q1, q2))
  {
    hide BackSubstitution;
    var k := ComputeCoefficients(d0, d1, d2, q0, q1, q2);
    center := DivideThrough(k, d0, q0);
  }

  method ComputeCoefficients(d0: Vec, d1: Vec, d2: Vec, q0: real, q1: real, q2: real) returns (k: Coefficients)
    ensures k == CoefficientsOf(System(d0, d1, d2, q0, q1, q2))
  {
    var a := d0.x * d2.z - d0.z * d2.x;
    var b := d0.y * d2.x - d0.x * d2.y;
    var c := d0.x * d2.y - d0.y * d2.x;
    var d := d0.x * q2 - d2.x * q0;
    var e := d0.x * d1.y - d0.y * d1.x;
    var f := d1.x * d0.z - d0.x * d1.z;
    var g := d0.x * q1 - d1.x * q0;
    k := Coefficients(a, b, c, d, e, f, g);
  }

  method DivideThrough(k: Coefficients, d0: Vec, q0: real) returns (center: Option<Vec>)
    ensures center == BackSubstitution(d0, q0, k)
  {
    var ou := k.d * k.e + k.b * k.g;
    var od := k.c * k.f + k.a * k.e;
    assert od == DivisorZ(k) && ou == DividendZ(k);
    if Abs(od) < EPSILON {
      return None;
    }
    var z := ou / od;
    ou := k.f * z + k.g;
    od := k.e;
    assert ou == DividendY(k, z);
    if Abs(od) < EPSILON {
      return None;
    }
    var y := ou / od;
    ou := q0 - d0.y * y - d0.z * z;
    od := d0.x;
    assert ou == DividendX(d0, q0, y, z);
    if Abs(od) < EPSILON {
      return None;
    }
    center := Some(Vec(ou / od, y, z));
  }
}
