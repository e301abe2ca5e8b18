/** The greedy choice of four points from the sample window (akfs_aoc.c, `Get4points`). */
module ExtremalPoints {
  import opened Vectors

  /** The index of the first largest positive key, or -1 when no key is positive. */
  function Peak(keys: seq<real>): (m: int)
    ensures -1 <= m < |keys|
    ensures m == -1 <==> forall i :: 0 <= i < |keys| ==> keys[i] <= 0.0
    ensures m >= 0 ==> keys[m] > 0.0
    ensures m >= 0 ==> forall i :: 0 <= i < |keys| ==> keys[i] <= keys[m]
    ensures m >= 0 ==> forall i :: 0 <= i < m ==> keys[i] < keys[m]
  {
    if keys == [] then -1 else
    var last := |keys| - 1;
    var m := Peak(keys[..last]);
    assert forall i :: 0 <= i < last ==> keys[..last][i] == keys[i];
    if (if m < 0 then 0.0 else keys[m]) < keys[last] then last else m
  }

  function PeakValue(keys: seq<real>): real {
    if Peak(keys) < 0 then 0.0 else keys[Peak(keys)]
  }

  /** Squared distances from the newest sample. */
  function DistanceKeys(w: seq<Vec>): seq<real>
    requires |w| > 0
  {
    seq(|w|, i requires 0 <= i < |w| => Dist2(w[i], w[0]))
  }

  /** Squared areas spanned with an edge. */
  function AreaKeys(w: seq<Vec>, edge: Vec): seq<real>
    requires |w| > 0
  {
    seq(|w|, i requires 0 <= i < |w| => Norm2(Cross(edge, Minus(w[i], w[0]))))
  }

  /** Absolute heights over a plane with a given normal, scaled by the length of the normal. */
  function HeightKeys(w: seq<Vec>, normal: Vec): seq<real>
    requires |w| > 0
  {
    seq(|w|, i requires 0 <= i < |w| => Abs(Dot(Minus(w[i], w[0]), normal)))
  }

  function Pick(w: seq<Vec>, m: int, otherwise: Vec): Vec
    requires m < |w|
  {
    if m < 0 then otherwise else w[m]
  }

  /** The edge from the newest sample to the chosen second point. */
  function Edge(w: seq<Vec>, stale: seq<Vec>): Vec
    requires |w| > 0 && |stale| == 4
  {
    Minus(Pick(w, Peak(DistanceKeys(w)), stale[1]), w[0])
  }

  /** The normal of the chosen triangle, zero when no sample lies off the edge. */
  function Normal(w: seq<Vec>, edge: Vec): Vec
    requires |w| > 0
  {
    var m := Peak(AreaKeys(w, edge));
    if m < 0 then ZERO else Cross(edge, Minus(w[m], w[0]))
  }

  /** The four points chosen from a window; a point for which there is no candidate keeps what the
    uninitialised output held before. */
  function FourPoints(w: seq<Vec>, stale: seq<Vec>): (p: seq<Vec>)
    requires |w| > 0 && |stale| == 4
    ensures |p| == 4
  {
    var edge := Edge(w, stale);
    [ w[0],
      Pick(w, Peak(DistanceKeys(w)), stale[1]),
      Pick(w, Peak(AreaKeys(w, edge)), stale[2]),
      Pick(w, Peak(HeightKeys(w, Normal(w, edge))), stale[3]) ]
  }

  lemma ChosenFrom(w: seq<Vec>, stale: seq<Vec>)
    requires |w| > 0 && |stale| == 4
    ensures forall i :: 0 <= i < 4 ==> FourPoints(w, stale)[i] in w || FourPoints(w, stale)[i] == stale[i]
  {
    hide Peak, Normal, Minus;
  }

  lemma PeakStep(keys: seq<real>, i: nat)
    requires i < |keys|
    ensures Peak(keys[..i + 1]) == if PeakValue(keys[..i]) < keys[i] then i else Peak(keys[..i])
    ensures PeakValue(keys[..i + 1]) == if PeakValue(keys[..i]) < keys[i] then keys[i] else PeakValue(keys[..i])
  {
    assert keys[..i + 1][..i] == keys[..i];
  }

  lemma NoDisplacement(edge: Vec, normal: Vec, a: Vec)
    ensures Dist2(a, a) == 0.0
    ensures Norm2(Cross(edge, Minus(a, a))) == 0.0
    ensures Abs(Dot(Minus(a, a), normal)) == 0.0
  {
    assert Minus(a, a) == ZERO && Cross(edge, ZERO) == ZERO;
  }

  lemma NoPeakYet(keys: seq<real>)
    requires |keys| > 0 && keys[0] == 0.0
    ensures Peak(keys[..1]) == -1 && PeakValue(keys[..1]) == 0.0
  {
  }

  lemma NewestSampleIsNoCandidate(w: seq<Vec>, edge: Vec, normal: Vec)
    requires |w| > 0
    ensures DistanceKeys(w)[0] == AreaKeys(w, edge)[0] == HeightKeys(w, normal)[0] == 0.0
  {
    hide Dist2, Norm2, Cross, Dot, Minus, Abs;
    NoDisplacement(edge, normal, w[0]);
  }

  /** The first pass of `Get4points`: the sample farthest from the newest one. */
  method ChooseSecond(v: array<Vec>, n: nat, out: array<Vec>)
    requires 0 < n <= v.Length && out.Length == 4 && v != out && out[0] == v[0]
    modifies out
    ensures out[..] == old(out[..])[1 := Pick(v[..n], Peak(DistanceKeys(v[..n])), old(out[1]))]
  {
    hide Dist2, Norm2, Dot, Minus, Peak, PeakValue;
    ghost var w := v[..n];
    ghost var keys := DistanceKeys(w);
    NewestSampleIsNoCandidate(w, ZERO, ZERO);
    NoPeakYet(keys);
    var d := 0.0;
    for i := 1 to n
      invariant d == PeakValue(keys[..i])
      invariant out[..] == old(out[..])[1 := Pick(w, Peak(keys[..i]), old(out[1]))]
    {
      PeakStep(keys, i);
      var temp := Dist2(v[i], out[0]);
      if d < temp {
        d := temp;
        out[1] := v[i];
      }
    }
    assert keys[..n] == keys;
  }

  /** The second pass: the sample spanning the largest area with the first edge. Fills the differences dv. */
  method ChooseThird(v: array<Vec>, n: nat, out: array<Vec>, dv: array<Vec>) returns (cross: Vec)
    requires 0 < n <= v.Length && n <= dv.Length && out.Length == 4
    requires v != out && v != dv && out != dv && out[0] == v[0]
    modifies out, dv
    ensures var w, edge := v[..n], Minus(old(out[1]), v[0]);
            && out[..] == old(out[..])[2 := Pick(w, Peak(AreaKeys(w, edge)), old(out[2]))]
            && cross == Normal(w, edge)
            && forall k :: 1 <= k < n ==> dv[k] == Minus(w[k], w[0])
  {
    hide Cross, Norm2, Minus, Peak, PeakValue;
    ghost var w := v[..n];
    dv[0] := Minus(out[1], out[0]);
    ghost var edge := dv[0];
    ghost var keys := AreaKeys(w, edge);
    NewestSampleIsNoCandidate(w, edge, ZERO);
    NoPeakYet(keys);
    var d := 0.0;
    cross := ZERO;
    for i := 1 to n
      invariant dv[0] == edge && forall k :: 1 <= k < i ==> dv[k] == Minus(w[k], w[0])
      invariant d == PeakValue(keys[..i])
      invariant cross == if Peak(keys[..i]) < 0 then ZERO else Cross(edge, Minus(w[Peak(keys[..i])], w[0]))
      invariant out[..] == old(out[..])[2 := Pick(w, Peak(keys[..i]), old(out[2]))]
    {
      PeakStep(keys, i);
      dv[i] := Minus(v[i], out[0]);
      var tempv := Cross(dv[0], dv[i]);
      var temp := Norm2(tempv);
      if d < temp {
        d := temp;
        out[2] := v[i];
        cross := tempv;
      }
    }
    assert keys[..n] == keys;
  }

  /** The third pass: the sample highest over the chosen triangle. */
  method ChooseFourth(v: array<Vec>, n: nat, out: array<Vec>, dv: array<Vec>, cross: Vec)
    requires 0 < n <= v.Length && n <= dv.Length && out.Length == 4 && v != out && out != dv
    requires forall k :: 1 <= k < n ==> dv[k] == Minus(v[k], v[0])
    modifies out
    ensures out[..] == old(out[..])[3 := Pick(v[..n], Peak(HeightKeys(v[..n], cross)), old(out[3]))]
  {
    hide Dot, Abs, Minus, Peak, PeakValue;
    ghost var w := v[..n];
    ghost var keys := HeightKeys(w, cross);
    NewestSampleIsNoCandidate(w, ZERO, cross);
    NoPeakYet(keys);
    var d := 0.0;
    for i := 1 to n
      invariant d == PeakValue(keys[..i])
      invariant out[..] == old(out[..])[3 := Pick(w, Peak(keys[..i]), old(out[3]))]
    {
      PeakStep(keys, i);
      var temp := Abs(Dot(dv[i], cross));
      if d < temp {
        d := temp;
        out[3] := v[i];
      }
    }
    assert keys[..n] == keys;
  }

  /** `Get4points`. */
  method Get4points(v: array<Vec>, n: nat, out: array<Vec>)
    requires 0 < n <= v.Length && out.Length == 4 && v != out
    modifies out
    ensures out[..] == FourPoints(v[..n], old(out[..]))
  {
    hide Minus, Peak, DistanceKeys, AreaKeys, HeightKeys, Normal;
    out[0] := v[0];
    ChooseSecond(v, n, out);
    var dv := new Vec[n];
    var cross := ChooseThird(v, n, out, dv);
    ChooseFourth(v, n, out, dv, cross);
  }

  /** Every sample of the window lies in one plane through the newest sample. */
  ghost predicate Planar(w: seq<Vec>)
    requires |w| > 0
  {
    forall i, j, k :: 0 <= i < |w| && 0 <= j < |w| && 0 <= k < |w| ==>
      Triple(Minus(w[i], w[0]), Minus(w[j], w[0]), Minus(w[k], w[0])) == 0.0
  }

  /** A planar window has a normal. */
  lemma PlanarWindowHasNormal(w: seq<Vec>) returns (u: Vec)
    requires |w| > 0 && Planar(w)
    ensures u != ZERO && forall k :: 0 <= k < |w| ==> Dot(Minus(w[k], w[0]), u) == 0.0
  {
    hide Dot, Minus, Cross, Triple;
    if i, j :| 0 <= i < |w| && 0 <= j < |w| && Cross(Minus(w[i], w[0]), Minus(w[j], w[0])) != ZERO {
      u := Cross(Minus(w[i], w[0]), Minus(w[j], w[0]));
      forall k | 0 <= k < |w|
        ensures Dot(Minus(w[k], w[0]), u) == 0.0
      {
        HeightIsVolume(Minus(w[k], w[0]), Minus(w[i], w[0]), Minus(w[j], w[0]));
      }
    } else if i :| 0 <= i < |w| && Minus(w[i], w[0]) != ZERO {
      u := OrthogonalVector(Minus(w[i], w[0]));
      forall k | 0 <= k < |w|
        ensures Dot(Minus(w[k], w[0]), u) == 0.0
      {
        OrthogonalToParallel(Minus(w[i], w[0]), Minus(w[k], w[0]), u);
      }
    } else {
      u := OrthogonalVector(ZERO);
    }
  }

  lemma CommonDirectionIsDependent(e: Vec, a: Vec, b: Vec, c: Vec)
    requires e != ZERO && Cross(e, a) == ZERO && Cross(e, b) == ZERO
    ensures Triple(a, b, c) == 0.0
  {
  }

  lemma NoSecondPointMeansAllEqual(w: seq<Vec>)
    requires |w| > 0 && Peak(DistanceKeys(w)) == -1
    ensures forall i :: 0 <= i < |w| ==> Minus(w[i], w[0]) == ZERO
  {
    hide Dot;
    forall i | 0 <= i < |w|
      ensures Minus(w[i], w[0]) == ZERO
    {
      assert DistanceKeys(w)[i] <= 0.0;
      NormNonNegative(Minus(w[i], w[0]));
    }
  }

  lemma NoThirdPointMeansAllParallel(w: seq<Vec>, edge: Vec)
    requires |w| > 0 && Peak(AreaKeys(w, edge)) == -1
    ensures forall i :: 0 <= i < |w| ==> Cross(edge, Minus(w[i], w[0])) == ZERO
  {
    hide Dot, Cross, Minus;
    forall i | 0 <= i < |w|
      ensures Cross(edge, Minus(w[i], w[0])) == ZERO
    {
      assert AreaKeys(w, edge)[i] <= 0.0;
      NormNonNegative(Cross(edge, Minus(w[i], w[0])));
    }
  }

  lemma NoFourthPointMeansAllOrthogonal(w: seq<Vec>, normal: Vec)
    requires |w| > 0
    ensures Peak(HeightKeys(w, normal)) == -1 <==> forall i :: 0 <= i < |w| ==> Dot(Minus(w[i], w[0]), normal) == 0.0
  {
    hide Dot, Minus;
    forall i | 0 <= i < |w|
      ensures HeightKeys(w, normal)[i] <= 0.0 <==> Dot(Minus(w[i], w[0]), normal) == 0.0
    {
    }
    if forall i :: 0 <= i < |w| ==> Dot(Minus(w[i], w[0]), normal) == 0.0 {
      forall i | 0 <= i < |w|
        ensures HeightKeys(w, normal)[i] <= 0.0
      {
      }
    }
  }

  /** A planar window leaves the last output unassigned, so the uninitialised value is used. */
  lemma PlanarWindowKeepsStalePoint(w: seq<Vec>, stale: seq<Vec>)
    requires |w| > 0 && |stale| == 4 && Planar(w)
    ensures FourPoints(w, stale)[3] == stale[3]
  {
    hide Dot, Minus, Cross;
    var edge := Edge(w, stale);
    var normal := Normal(w, edge);
    var m1, m2 := Peak(DistanceKeys(w)), Peak(AreaKeys(w, edge));
    forall i | 0 <= i < |w|
      ensures Dot(Minus(w[i], w[0]), normal) == 0.0
    {
      var a := Minus(w[i], w[0]);
      if m2 < 0 || m1 < 0 {
        if m1 < 0 {
          NoSecondPointMeansAllEqual(w);
        }
        ZeroHasNoProducts(a, edge);
      } else {
        assert Triple(a, Minus(w[m1], w[0]), Minus(w[m2], w[0])) == 0.0;
      }
    }
    NoFourthPointMeansAllOrthogonal(w, normal);
  }

  lemma ZeroHasNoProducts(a: Vec, e: Vec)
    ensures Dot(a, ZERO) == 0.0 && Dot(ZERO, a) == 0.0 && Cross(e, ZERO) == ZERO
  {
  }

  /** In a window that is not planar every pass finds a candidate. */
  lemma SpatialWindowUsesNoStalePoint(w: seq<Vec>, stale: seq<Vec>)
    requires |w| > 0 && |stale| == 4 && !Planar(w)
    ensures Peak(DistanceKeys(w)) >= 0 && Peak(AreaKeys(w, Edge(w, stale))) >= 0
    ensures Peak(HeightKeys(w, Normal(w, Edge(w, stale)))) >= 0
  {
    hide Dot, Minus, Cross;
    var i, j, k :| 0 <= i < |w| && 0 <= j < |w| && 0 <= k < |w| &&
                   Triple(Minus(w[i], w[0]), Minus(w[j], w[0]), Minus(w[k], w[0])) != 0.0;
    var a, b, c := Minus(w[i], w[0]), Minus(w[j], w[0]), Minus(w[k], w[0]);
    hide Planar, AreaKeys, HeightKeys, DistanceKeys, Peak, Triple;
    var edge := Edge(w, stale);
    var normal := Normal(w, edge);
    if Peak(DistanceKeys(w)) < 0 {
      NoSecondPointMeansAllEqual(w);
      ZeroIsDependent(a, b, c);
      assert false;
    }
    DistinctFromNewest(w, Peak(DistanceKeys(w)));
    if Peak(AreaKeys(w, edge)) < 0 {
      NoThirdPointMeansAllParallel(w, edge);
      CommonDirectionIsDependent(edge, a, b, c);
      assert false;
    }
    OffTheEdge(w, edge, Peak(AreaKeys(w, edge)));
    NoFourthPointMeansAllOrthogonal(w, normal);
    if Peak(HeightKeys(w, normal)) < 0 {
      CommonNormalIsDependent(a, b, c, normal);
      assert false;
    }
  }

  /** A window that is not planar determines all four points: they are samples and span a proper tetrahedron. */
  lemma SpatialWindowGivesTetrahedron(w: seq<Vec>, stale: seq<Vec>)
    requires |w| > 0 && |stale| == 4 && !Planar(w)
    ensures var p := FourPoints(w, stale);
            && (forall i :: 0 <= i < 4 ==> p[i] in w)
            && Triple(Minus(p[1], p[0]), Minus(p[2], p[0]), Minus(p[3], p[0])) != 0.0
  {
    hide Dot, Minus, Cross, Planar, Triple, Abs;
    SpatialWindowUsesNoStalePoint(w, stale);
    var edge := Edge(w, stale);
    var normal := Normal(w, edge);
    var m2, m3 := Peak(AreaKeys(w, edge)), Peak(HeightKeys(w, normal));
    HighestIsNotOrthogonal(w, normal, m3);
    HeightIsVolume(Minus(w[m3], w[0]), edge, Minus(w[m2], w[0]));
  }

  /** The choice is greedy: no sample is farther from the newest one than the second point, none spans a larger area
    with that edge than the third, none a larger volume with that triangle than the fourth. */
  lemma ChosenPointsAreMaximal(w: seq<Vec>, stale: seq<Vec>, i: nat)
    requires |w| > 0 && |stale| == 4 && !Planar(w) && i < |w|
    ensures var p := FourPoints(w, stale);
            && p[0] == w[0]
            && Dist2(w[i], p[0]) <= Dist2(p[1], p[0])
            && Norm2(Cross(Minus(p[1], p[0]), Minus(w[i], p[0]))) <= Norm2(Cross(Minus(p[1], p[0]), Minus(p[2], p[0])))
            && Abs(Triple(Minus(p[1], p[0]), Minus(p[2], p[0]), Minus(w[i], p[0])))
               <= Abs(Triple(Minus(p[1], p[0]), Minus(p[2], p[0]), Minus(p[3], p[0])))
  {
    hide Dot, Minus, Cross, Planar, Triple, Abs, Dist2, Norm2;
    SpatialWindowUsesNoStalePoint(w, stale);
    var edge := Edge(w, stale);
    var normal := Normal(w, edge);
    var m1, m2, m3 := Peak(DistanceKeys(w)), Peak(AreaKeys(w, edge)), Peak(HeightKeys(w, normal));
    assert DistanceKeys(w)[i] <= DistanceKeys(w)[m1];
    assert AreaKeys(w, edge)[i] <= AreaKeys(w, edge)[m2];
    assert HeightKeys(w, normal)[i] <= HeightKeys(w, normal)[m3];
    HeightIsVolume(Minus(w[i], w[0]), edge, Minus(w[m2], w[0]));
    HeightIsVolume(Minus(w[m3], w[0]), edge, Minus(w[m2], w[0]));
  }

  lemma DistinctFromNewest(w: seq<Vec>, m: int)
    requires |w| > 0 && 0 <= m == Peak(DistanceKeys(w))
    ensures Minus(w[m], w[0]) != ZERO
  {
    hide Minus, Dot;
    assert DistanceKeys(w)[m] > 0.0;
    ZeroHasNoProducts(ZERO, ZERO);
  }

  lemma OffTheEdge(w: seq<Vec>, edge: Vec, m: int)
    requires |w| > 0 && 0 <= m == Peak(AreaKeys(w, edge))
    ensures Cross(edge, Minus(w[m], w[0])) != ZERO
  {
    hide Minus, Dot, Cross;
    assert AreaKeys(w, edge)[m] > 0.0;
    ZeroHasNoProducts(ZERO, ZERO);
  }

  lemma HighestIsNotOrthogonal(w: seq<Vec>, normal: Vec, m: int)
    requires |w| > 0 && 0 <= m == Peak(HeightKeys(w, normal))
    ensures Dot(Minus(w[m], w[0]), normal) != 0.0
  {
    hide Minus, Dot;
    assert HeightKeys(w, normal)[m] > 0.0;
  }

  lemma ZeroIsDependent(a: Vec, b: Vec, c: Vec)
    requires a == ZERO
    ensures Triple(a, b, c) == 0.0
  {
    ZeroHasNoProducts(Cross(b, c), ZERO);
  }

  lemma CommonNormalIsDependent(a: Vec, b: Vec, c: Vec, n: Vec)
    requires n != ZERO && Dot(a, n) == 0.0 && Dot(b, n) == 0.0 && Dot(c, n) == 0.0
    ensures Triple(a, b, c) == 0.0
  {
    OrthogonalToAllIsZero(a, b, c, n);
  }

  lemma HeightIsVolume(a: Vec, b: Vec, c: Vec)
    ensures Dot(a, Cross(b, c)) == Triple(b, c, a)
  {
  }

  /** The choice is independent of the uninitialised output exactly when the window is not planar. */
  lemma ChoiceIsDeterminedIffSpatial(w: seq<Vec>)
    requires |w| > 0
    ensures !Planar(w) <==>
            forall s, t: seq<Vec> :: |s| == 4 && |t| == 4 ==> FourPoints(w, s) == FourPoints(w, t)
  {
    hide Planar;
    if Planar(w) {
      var s := [w[0], w[0], w[0], Vec(0.0, 0.0, 0.0)];
      var t := [w[0], w[0], w[0], Vec(1.0, 0.0, 0.0)];
      PlanarWindowKeepsStalePoint(w, s);
      PlanarWindowKeepsStalePoint(w, t);
      assert FourPoints(w, s) != FourPoints(w, t);
    } else {
      forall s, t: seq<Vec> | |s| == 4 && |t| == 4
        ensures FourPoints(w, s) == FourPoints(w, t)
      {
        SpatialWindowUsesNoStalePoint(w, s);
        SpatialWindowUsesNoStalePoint(w, t);
      }
    }
  }

  /** A window of equal samples assigns only the first point. */
  lemma EqualSamplesChooseNothing(w: seq<Vec>, stale: seq<Vec>)
    requires |w| > 0 && |stale| == 4 && forall i :: 0 <= i < |w| ==> w[i] == w[0]
    ensures FourPoints(w, stale) == [w[0], stale[1], stale[2], stale[3]]
  {
    hide Dot, Minus, Cross, Abs, Norm2, Dist2;
    var edge := Edge(w, stale);
    NoDisplacement(edge, ZERO, w[0]);
    assert forall i :: 0 <= i < |w| ==> DistanceKeys(w)[i] == 0.0;
    assert forall i :: 0 <= i < |w| ==> AreaKeys(w, edge)[i] == 0.0;
    assert forall i :: 0 <= i < |w| ==> HeightKeys(w, ZERO)[i] == 0.0;
  }

  /** Translating the window and the uninitialised output translates the choice: it only looks at differences. */
  lemma FourPointsOfShifted(w: seq<Vec>, w': seq<Vec>, stale: seq<Vec>, stale': seq<Vec>, t: Vec)
    requires |w| > 0 && |stale| == 4 && Shifted(w, w', t) && Shifted(stale, stale', t)
    ensures Shifted(FourPoints(w, stale), FourPoints(w', stale'), t)
  {
    forall i | 0 <= i < |w|
      ensures Minus(w'[i], w'[0]) == Minus(w[i], w[0])
    {
    }
    hide Minus, Cross, Dot, Abs, Plus;
    assert DistanceKeys(w') == DistanceKeys(w);
    var edge := Edge(w, stale);
    assert Edge(w', stale') == edge by {
      DifferenceOfShifted(Pick(w, Peak(DistanceKeys(w)), stale[1]), w[0], t);
    }
    assert AreaKeys(w', edge) == AreaKeys(w, edge);
    assert HeightKeys(w', Normal(w, edge)) == HeightKeys(w, Normal(w, edge));
  }
}
