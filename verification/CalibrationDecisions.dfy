/** When the calibration accepts a fit and when it reports success, over whole runs and in terms of the points and
  centres themselves. */
module CalibrationDecisions {
  import opened Options
  import opened Vectors
  import opened Buffers
  import opened SphereFit
  import opened ExtremalPoints
  import opened Calibration
  import opened CalibrationRuns
  import opened CalibrationBias

  // ---- accepting a fit ----

  /** The sphere through the four points chosen from a window of at least four samples. */
  function FitOf(w: seq<Vec>, stale: Stale): Fit {
    if |w| >= 4 then FitSphere(FourPoints(w, stale)) else NoFit
  }

  /** There are four samples, the fit finds the sphere, and the four points are pairwise at least a radius and at least
    10 apart. */
  predicate Qualifies(w: seq<Vec>, stale: Stale) {
    && |w| >= 4
    && FitOf(w, stale).Sphere?
    && var p := FourPoints(w, stale);
       forall i, j :: 0 <= i < j < 4 ==> Dist2(p[i], p[j]) >= FitOf(w, stale).r2 && Dist2(p[i], p[j]) >= 100.0
  }

  /** The last sample of a run added a centre. */
  ghost predicate CenterAdded(offset: Vec, samples: seq<Sample>) {
    samples != [] && |RunOf(offset, samples).centers| > |RunOf(offset, samples[..|samples| - 1]).centers|
  }

  /** How many samples the window holds when one more has arrived. */
  function WindowSize(depth: nat): nat {
    if depth < 20 then depth + 1 else 20
  }

  lemma JudgeIff(w: seq<Vec>, stale: Stale, r2: real)
    ensures var (q, c) := Judge(w, stale, r2);
            && (c.Some? <==> Qualifies(w, stale))
            && (c.Some? ==> FitOf(w, stale) == Sphere(c.value, q))
  {
    hide FourPoints, FitSphere, Dist2;
  }

  /** The step of a run from a window that qualifies: the centre of the sphere is added, and all but the newest ten
    samples are dropped. */
  ghost predicate Accepts(before: Run, after: Run, w: seq<Vec>, stale: Stale) {
    && (exists c :: after.centers == [c] + before.centers && FitOf(w, stale) == Sphere(c, after.state.r2))
    && after.depth == if |w| < 10 then |w| else 10
  }

  /** Main result: a sample adds a centre if and only if the window, with that sample, qualifies. */
  lemma CenterIsAddedIff(offset: Vec, samples: seq<Sample>)
    requires samples != [] && SamplesInRange(samples)
    ensures var last := |samples| - 1;
            var before, after := RunOf(offset, samples[..last]), RunOf(offset, samples);
            && before.depth < |samples|
            && var w := Newest(samples, WindowSize(before.depth));
               && (CenterAdded(offset, samples) <==> Qualifies(w, samples[last].stale))
               && (Qualifies(w, samples[last].stale) ==> Accepts(before, after, w, samples[last].stale))
               && (!Qualifies(w, samples[last].stale) ==> after.centers == before.centers && after.depth == |w|)
  {
    hide Advance, Judge, Window, Pushed, Qualifies, FitOf, HoldsMostRecent, SamplesInRange, RunOf, Newest;
    var r, last := LastStep(offset, samples);
    var init := samples[..|samples| - 1];
    assert init + [last] == samples;
    WindowsHoldMostRecent(offset, init);
    DepthIsBounded(init, r);
    WindowIsNewest(init, r, last);
    AdvanceByJudgement(r, last);
    JudgeIff(Window(Pushed(r.state.hbuf, last.v)), last.stale, r.state.r2);
    TooFewDoNotQualify(Newest(samples, WindowSize(r.depth)), last.stale);
    TooFewDoNotQualify([], last.stale);
  }

  lemma TooFewDoNotQualify(w: seq<Vec>, stale: Stale)
    ensures |w| < 4 ==> !Qualifies(w, stale)
  {
  }

  lemma DepthIsBounded(samples: seq<Sample>, r: Run)
    requires HoldsMostRecent(samples, r)
    ensures r.depth <= |samples| && r.depth <= 20
  {
  }

  // ---- reporting success ----

  /** Two numbers differ by less than the square root of q. */
  predicate Near(x: real, y: real, q: real) {
    (x - y) * (x - y) < q
  }

  /** On every axis two vectors differ by less than 0.15 of the radius. */
  predicate CloseTogether(a: Vec, b: Vec, r2: real) {
    Near(a.x, b.x, 0.0225 * r2) && Near(a.y, b.y, 0.0225 * r2) && Near(a.z, b.z, 0.0225 * r2)
  }

  /** A value is half the sum of the least and the greatest of some numbers. */
  ghost predicate HalfOfExtremes(v: seq<real>, m: real) {
    exists i, j :: 0 <= i < |v| && 0 <= j < |v| && (forall k :: 0 <= k < |v| ==> v[i] <= v[k] <= v[j])
                   && 2.0 * m == v[i] + v[j]
  }

  function Xs(v: seq<Vec>): (r: seq<real>)
    ensures |r| == |v|
  {
    seq(|v|, i requires 0 <= i < |v| => v[i].x)
  }

  function Ys(v: seq<Vec>): (r: seq<real>)
    ensures |r| == |v|
  {
    seq(|v|, i requires 0 <= i < |v| => v[i].y)
  }

  function Zs(v: seq<Vec>): (r: seq<real>)
    ensures |r| == |v|
  {
    seq(|v|, i requires 0 <= i < |v| => v[i].z)
  }

  /** The least and the greatest of some numbers. */
  ghost predicate Extremes(v: seq<real>, lo: real, hi: real) {
    && (forall k :: 0 <= k < |v| ==> lo <= v[k] <= hi)
    && (exists i :: 0 <= i < |v| && v[i] == lo)
    && (exists j :: 0 <= j < |v| && v[j] == hi)
  }

  lemma ExtremesOfOneMore(v: seq<real>, lo: real, hi: real, x: real)
    requires Extremes(v, lo, hi)
    ensures Extremes(v + [x], if x < lo then x else lo, if x > hi then x else hi)
  {
    var all := v + [x];
    var i :| 0 <= i < |v| && v[i] == lo;
    var j :| 0 <= j < |v| && v[j] == hi;
    assert all[i] == lo && all[j] == hi && all[|v|] == x;
  }

  /** Each side of the bounding box touches a vector. */
  lemma {:induction false} BoxIsTight(v: seq<Vec>)
    requires |v| > 0
    ensures Extremes(Xs(v), Low(v).x, High(v).x)
    ensures Extremes(Ys(v), Low(v).y, High(v).y)
    ensures Extremes(Zs(v), Low(v).z, High(v).z)
  {
    hide Extremes, Xs, Ys, Zs;
    if |v| == 1 {
      BoxOfOne(v);
    } else {
      var init, last := v[..|v| - 1], v[|v| - 1];
      BoxIsTight(init);
      ExtremesOfOneMore(Xs(init), Low(init).x, High(init).x, last.x);
      ExtremesOfOneMore(Ys(init), Low(init).y, High(init).y, last.y);
      ExtremesOfOneMore(Zs(init), Low(init).z, High(init).z, last.z);
      AxesOfOneMore(init, last);
      assert v == init + [last];
    }
  }

  lemma BoxOfOne(v: seq<Vec>)
    requires |v| == 1
    ensures Extremes(Xs(v), v[0].x, v[0].x) && Extremes(Ys(v), v[0].y, v[0].y) && Extremes(Zs(v), v[0].z, v[0].z)
  {
    assert Xs(v)[0] == v[0].x && Ys(v)[0] == v[0].y && Zs(v)[0] == v[0].z;
  }

  lemma AxesOfOneMore(v: seq<Vec>, last: Vec)
    ensures Xs(v + [last]) == Xs(v) + [last.x]
    ensures Ys(v + [last]) == Ys(v) + [last.y]
    ensures Zs(v + [last]) == Zs(v) + [last.z]
  {
  }

  lemma NonNegativeProduct(a: real, b: real)
    requires a >= 0.0 && b >= 0.0
    ensures a * b >= 0.0
  {
  }

  lemma PartOfInterval(lo: real, hi: real, x: real, y: real, q: real)
    requires lo <= x <= hi && lo <= y <= hi && Near(hi, lo, q)
    ensures Near(x, y, q)
  {
    var d, e := hi - lo, x - y;
    NonNegativeProduct(d - e, d + e);
    assert d * d - e * e == (d - e) * (d + e);
  }

  /** Every two of some numbers differ by less than the square root of q. */
  ghost predicate PairwiseNear(v: seq<real>, q: real) {
    forall i, j :: 0 <= i < |v| && 0 <= j < |v| ==> Near(v[i], v[j], q)
  }

  lemma NarrowIffPairsAreNear(v: seq<real>, lo: real, hi: real, q: real)
    requires Extremes(v, lo, hi)
    ensures Near(hi, lo, q) <==> PairwiseNear(v, q)
  {
    hide Near;
    if Near(hi, lo, q) {
      forall i, j | 0 <= i < |v| && 0 <= j < |v|
        ensures Near(v[i], v[j], q)
      {
        PartOfInterval(lo, hi, v[i], v[j], q);
      }
    } else {
      var i :| 0 <= i < |v| && v[i] == lo;
      var j :| 0 <= j < |v| && v[j] == hi;
      assert !Near(v[j], v[i], q);
    }
  }

  lemma HalfOfCorners(v: seq<real>, lo: real, hi: real)
    requires Extremes(v, lo, hi)
    ensures HalfOfExtremes(v, (hi + lo) / 2.0)
  {
    var i :| 0 <= i < |v| && v[i] == lo;
    var j :| 0 <= j < |v| && v[j] == hi;
    assert 2.0 * ((hi + lo) / 2.0) == v[i] + v[j];
  }

  /** The box of some vectors is narrow exactly when every two of them are close together. */
  lemma AgreeIffPairsAreClose(v: seq<Vec>, r2: real)
    requires |v| > 0
    ensures Agree(v, r2) <==> forall i, j :: 0 <= i < |v| && 0 <= j < |v| ==> CloseTogether(v[i], v[j], r2)
  {
    hide Low, High, Extremes, PairwiseNear, CloseTogether, Near, Agree, Xs, Ys, Zs;
    var q := 0.0225 * r2;
    BoxIsTight(v);
    AgreeByAxis(v, r2);
    NarrowIffPairsAreNear(Xs(v), Low(v).x, High(v).x, q);
    NarrowIffPairsAreNear(Ys(v), Low(v).y, High(v).y, q);
    NarrowIffPairsAreNear(Zs(v), Low(v).z, High(v).z, q);
    PairsByAxis(v, r2);
  }

  lemma AgreeByAxis(v: seq<Vec>, r2: real)
    requires |v| > 0
    ensures var q := 0.0225 * r2;
            Agree(v, r2)
            <==> Near(High(v).x, Low(v).x, q) && Near(High(v).y, Low(v).y, q) && Near(High(v).z, Low(v).z, q)
  {
    hide High, Low;
  }

  lemma PairsByAxis(v: seq<Vec>, r2: real)
    ensures var q := 0.0225 * r2;
            (forall i, j :: 0 <= i < |v| && 0 <= j < |v| ==> CloseTogether(v[i], v[j], r2))
            <==> PairwiseNear(Xs(v), q) && PairwiseNear(Ys(v), q) && PairwiseNear(Zs(v), q)
  {
    hide Near;
    var q := 0.0225 * r2;
    if forall i, j :: 0 <= i < |v| && 0 <= j < |v| ==> CloseTogether(v[i], v[j], r2) {
      forall i, j | 0 <= i < |v| && 0 <= j < |v|
        ensures Near(Xs(v)[i], Xs(v)[j], q) && Near(Ys(v)[i], Ys(v)[j], q) && Near(Zs(v)[i], Zs(v)[j], q)
      {
        assert CloseTogether(v[i], v[j], r2);
      }
    }
    if PairwiseNear(Xs(v), q) && PairwiseNear(Ys(v), q) && PairwiseNear(Zs(v), q) {
      forall i, j | 0 <= i < |v| && 0 <= j < |v|
        ensures CloseTogether(v[i], v[j], r2)
      {
        assert Near(Xs(v)[i], Xs(v)[j], q) && Near(Ys(v)[i], Ys(v)[j], q) && Near(Zs(v)[i], Zs(v)[j], q);
      }
    }
  }

  lemma MidpointIsHalfOfExtremes(v: seq<Vec>)
    requires |v| > 0
    ensures var m := Midpoint(High(v), Low(v));
            HalfOfExtremes(Xs(v), m.x) && HalfOfExtremes(Ys(v), m.y) && HalfOfExtremes(Zs(v), m.z)
  {
    hide Low, High, Extremes, HalfOfExtremes, Xs, Ys, Zs;
    BoxIsTight(v);
    HalfOfCorners(Xs(v), Low(v).x, High(v).x);
    HalfOfCorners(Ys(v), Low(v).y, High(v).y);
    HalfOfCorners(Zs(v), Low(v).z, High(v).z);
  }

  /** There are four centres, and every two of the last four are close together. */
  ghost predicate CentersAgree(r: Run) {
    |r.centers| >= 4
    && forall i, j :: 0 <= i < 4 && 0 <= j < 4 ==> CloseTogether(r.centers[i], r.centers[j], r.state.r2)
  }

  /** Main result: a call reports success if and only if its sample added a centre, there are four centres, and every
    two of the last four differ by less than 0.15 of the radius on every axis. The offset is then half the sum of their
    least and greatest coordinates; otherwise it stays. */
  lemma SuccessIff(offset: Vec, samples: seq<Sample>)
    requires SamplesInRange(samples)
    ensures var r := RunOf(offset, samples);
            && (r.ok <==> CenterAdded(offset, samples) && CentersAgree(r))
            && (r.ok ==>
                  var c := r.centers[..4];
                  && HalfOfExtremes(Xs(c), r.offset.x)
                  && HalfOfExtremes(Ys(c), r.offset.y)
                  && HalfOfExtremes(Zs(c), r.offset.z))
            && (!r.ok && samples != [] ==> r.offset == RunOf(offset, samples[..|samples| - 1]).offset)
  {
    NothingReportedYet(offset);
    if samples != [] {
      hide *;
      CentersInRange(offset, samples);
      WindowsHoldMostRecent(offset, samples);
      var s, last := LastStep(offset, samples);
      CenterAddedByJudgement(offset, samples, s, last);
      SuccessOfStep(samples, s, last);
      if !RunOf(offset, samples).ok {
        FailureKeepsOffset(offset, samples);
      }
    }
  }

  lemma CenterAddedByJudgement(offset: Vec, samples: seq<Sample>, s: Run, last: Sample)
    requires samples != [] && s == RunOf(offset, samples[..|samples| - 1])
    requires RunOf(offset, samples) == Advance(s, last)
    ensures CenterAdded(offset, samples)
        <==> Judge(Window(Pushed(s.state.hbuf, last.v)), last.stale, s.state.r2).1.Some?
  {
    hide RunOf, Advance, Judge, Window, Pushed;
    AdvanceByJudgement(s, last);
  }

  lemma SuccessOfStep(samples: seq<Sample>, s: Run, last: Sample)
    requires HoldsMostRecent(samples, Advance(s, last)) && AllInRange(Advance(s, last).centers, 5.0 * LIMIT)
    ensures var r := Advance(s, last);
            && (r.ok <==>
                  Judge(Window(Pushed(s.state.hbuf, last.v)), last.stale, s.state.r2).1.Some? && CentersAgree(r))
            && (r.ok ==>
                  var c := r.centers[..4];
                  && HalfOfExtremes(Xs(c), r.offset.x)
                  && HalfOfExtremes(Ys(c), r.offset.y)
                  && HalfOfExtremes(Zs(c), r.offset.z))
  {
    hide Advance, Judge, Window, Pushed, Agree, High, Low, Midpoint, HoldsMostRecent, AllInRange, IsEmpty;
    hide CloseTogether, Xs, Ys, Zs, HalfOfExtremes;
    AdvanceByJudgement(s, last);
    var r := Advance(s, last);
    if |r.centers| < HOBUF_SIZE {
      SparseCenters(samples, r);
    } else {
      DenseCenters(samples, r);
      AgreeIffPairsAreClose(r.state.hobuf, r.state.r2);
      MidpointIsHalfOfExtremes(r.state.hobuf);
      assert forall i :: 0 <= i < 4 ==> r.state.hobuf[i] == r.centers[i];
    }
  }
}
