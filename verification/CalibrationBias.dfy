/** A constant bias added to every sample is absorbed by the calibration: two runs whose inputs differ by a
  constant vector decide alike at every step, and their offsets differ by exactly that vector. */
module CalibrationBias {
  import opened Options
  import opened Vectors
  import opened Buffers
  import opened SphereFit
  import opened ExtremalPoints
  import opened Calibration
  import opened CalibrationRuns

  /** Samples this small can never make a centre or an offset look like an empty slot. A sample is a 32-bit
    integer divided by 65536, far below this limit. */
  const LIMIT: real := FMAX / 8.0

  predicate InRange(v: Vec, limit: real) {
    -limit < v.x < limit && -limit < v.y < limit && -limit < v.z < limit
  }

  ghost predicate AllInRange(v: seq<Vec>, limit: real) {
    forall i :: 0 <= i < |v| ==> InRange(v[i], limit)
  }

  ghost predicate SamplesInRange(samples: seq<Sample>) {
    forall i :: 0 <= i < |samples| ==> InRange(samples[i].v, LIMIT) && AllInRange(samples[i].stale, LIMIT)
  }

  lemma InRangeIsReadable(v: Vec)
    requires InRange(v, 5.0 * LIMIT)
    ensures !IsEmpty(v)
  {
  }

  lemma SmallRangeIsReadable(v: Vec)
    requires InRange(v, LIMIT)
    ensures !IsEmpty(v)
  {
  }

  lemma SquareBound(x: real, m: real)
    requires m > 0.0 && x * x < m * m
    ensures -m < x < m
  {
  }

  lemma SquareBelow(x: real, m: real)
    requires m > 0.0 && -m < x < m
    ensures x * x < m * m
  {
    assert (m - x) * (m + x) > 0.0;
  }

  lemma DistanceInRange(a: Vec, b: Vec, limit: real)
    requires InRange(a, limit) && InRange(b, limit)
    ensures Dist2(a, b) < 16.0 * (limit * limit)
  {
    var m := 2.0 * limit;
    SquareBelow(a.x - b.x, m);
    SquareBelow(a.y - b.y, m);
    SquareBelow(a.z - b.z, m);
    assert m * m == 4.0 * (limit * limit);
    SquareNonNegative(limit);
  }

  /** A point at most as far from a centre as from another point: the centre is in five times the range. */
  lemma CenterNearPoint(p: Vec, q: Vec, c: Vec, limit: real)
    requires limit > 0.0 && InRange(p, limit) && InRange(q, limit)
    requires Dist2(p, c) <= Dist2(p, q)
    ensures InRange(c, 5.0 * limit)
  {
    hide Norm2;
    DistanceInRange(p, q, limit);
    ComponentsWithinNorm(Minus(p, c));
    assert 16.0 * (limit * limit) == (4.0 * limit) * (4.0 * limit);
    SquareBound(p.x - c.x, 4.0 * limit);
    SquareBound(p.y - c.y, 4.0 * limit);
    SquareBound(p.z - c.z, 4.0 * limit);
  }

  lemma ComponentsWithinNorm(d: Vec)
    ensures d.x * d.x <= Norm2(d) && d.y * d.y <= Norm2(d) && d.z * d.z <= Norm2(d)
  {
    SquareNonNegative(d.x);
    SquareNonNegative(d.y);
    SquareNonNegative(d.z);
  }

  /** An accepted centre is no farther from a sample than two samples are from each other. */
  lemma AcceptedCenterInRange(s: State, v: Vec, ho: Vec, stale: Stale, c: Vec)
    requires Step(s, v, ho, stale).accepted == Some(c)
    requires AllInRange(Window(Pushed(s.hbuf, v)), LIMIT) && AllInRange(stale, LIMIT)
    ensures InRange(c, 5.0 * LIMIT)
  {
    hide Step, Window, Pushed, Dist2, FourPoints, InRange;
    AcceptedSphere(s, v, ho, stale, c);
    var w := Window(Pushed(s.hbuf, v));
    var p := FourPoints(w, stale);
    ChosenFrom(w, stale);
    assert Dist2(p[0], p[1]) >= Dist2(p[0], c);
    CenterNearPoint(p[0], p[1], c, LIMIT);
  }

  lemma NewestInRange(samples: seq<Sample>, k: nat)
    requires k <= |samples| && SamplesInRange(samples)
    ensures AllInRange(Newest(samples, k), LIMIT)
  {
    hide InRange;
  }

  /** The window a step works on, when all samples are readable. */
  lemma WindowIsNewest(init: seq<Sample>, r: Run, last: Sample)
    requires HoldsMostRecent(init, r) && SamplesInRange(init + [last])
    ensures var k := Min(r.depth + 1, HBUF_SIZE);
            Window(Pushed(r.state.hbuf, last.v)) == if k >= 4 then Newest(init + [last], k) else []
  {
    hide Pushed, Occupied, IsEmpty, InRange;
    PushedWindow(init, r, last);
    var k := Min(r.depth + 1, HBUF_SIZE);
    var entries := Newest(init + [last], k);
    NewestInRange(init + [last], k);
    forall i | 0 <= i < k
      ensures !IsEmpty(entries[i])
    {
      SmallRangeIsReadable(entries[i]);
    }
    OccupiedOfFilled(entries);
    assert Filled(entries, HBUF_SIZE)[..k] == entries;
  }

  lemma NextCenterInRange(init: seq<Sample>, r: Run, last: Sample)
    requires HoldsMostRecent(init, r) && SamplesInRange(init + [last])
    requires AllInRange(r.centers, 5.0 * LIMIT)
    ensures AllInRange(Advance(r, last).centers, 5.0 * LIMIT)
  {
    hide InRange, HoldsMostRecent, Step, Window, Pushed;
    var o := Step(r.state, last.v, r.offset, last.stale);
    if o.accepted.Some? {
      assert (init + [last])[|init|] == last;
      WindowInRange(init, r, last);
      AcceptedCenterInRange(r.state, last.v, r.offset, last.stale, o.accepted.value);
    }
  }

  lemma WindowInRange(init: seq<Sample>, r: Run, last: Sample)
    requires HoldsMostRecent(init, r) && SamplesInRange(init + [last])
    ensures AllInRange(Window(Pushed(r.state.hbuf, last.v)), LIMIT)
  {
    hide SamplesInRange, Window, Pushed;
    WindowIsNewest(init, r, last);
    NewestInRange(init + [last], Min(r.depth + 1, HBUF_SIZE));
  }

  lemma PrefixInRange(init: seq<Sample>, last: Sample)
    requires SamplesInRange(init + [last])
    ensures SamplesInRange(init)
  {
    hide InRange;
    assert forall i :: 0 <= i < |init| ==> (init + [last])[i] == init[i];
  }

  /** No accepted centre can be mistaken for an empty slot. */
  lemma {:induction false} CentersInRange(offset: Vec, samples: seq<Sample>)
    requires SamplesInRange(samples)
    ensures AllInRange(RunOf(offset, samples).centers, 5.0 * LIMIT)
  {
    hide RunOf, Advance, HoldsMostRecent, InRange;
    if samples == [] {
      NothingReportedYet(offset);
    } else {
      hide *;
      var r, last := LastStep(offset, samples);
      var init := samples[..|samples| - 1];
      assert init + [last] == samples;
      PrefixInRange(init, last);
      CentersInRange(offset, init);
      WindowsHoldMostRecent(offset, init);
      NextCenterInRange(init, r, last);
    }
  }

  lemma {:induction false} BoxOfShifted(v: seq<Vec>, v': seq<Vec>, t: Vec)
    requires |v| > 0 && Shifted(v, v', t)
    ensures Low(v') == Plus(Low(v), t) && High(v') == Plus(High(v), t)
  {
    if |v| == 1 {
    } else {
      BoxOfShifted(v[..|v| - 1], v'[..|v| - 1], t);
    }
  }

  lemma AgreementOfShifted(v: seq<Vec>, v': seq<Vec>, t: Vec, r2: real)
    requires |v| > 0 && Shifted(v, v', t)
    ensures Agree(v', r2) == Agree(v, r2)
    ensures Midpoint(High(v'), Low(v')) == Plus(Midpoint(High(v), Low(v)), t)
  {
    BoxOfShifted(v, v', t);
    hide Low, High;
    BoxComparison(Low(v), High(v), t, HO_TH2 * r2);
  }

  lemma BoxComparison(lo: Vec, hi: Vec, t: Vec, q: real)
    ensures Within(Plus(hi, t), Plus(lo, t), q) == Within(hi, lo, q)
    ensures Midpoint(Plus(hi, t), Plus(lo, t)) == Plus(Midpoint(hi, lo), t)
  {
    assert Within(Plus(hi, t), Plus(lo, t), q) == Within(hi, lo, q) by {
      assert Plus(hi, t).x - Plus(lo, t).x == hi.x - lo.x;
      assert Plus(hi, t).y - Plus(lo, t).y == hi.y - lo.y;
      assert Plus(hi, t).z - Plus(lo, t).z == hi.z - lo.z;
    }
  }

  lemma SpreadOfShifted(p: seq<Vec>, p': seq<Vec>, t: Vec, r2: real)
    requires Shifted(p, p', t)
    ensures Spread(p', r2) == Spread(p, r2)
  {
    forall i, j | 0 <= i < j < |p|
      ensures Dist2(p'[i], p'[j]) == Dist2(p[i], p[j])
    {
      DistanceOfShifted(p[i], p[j], t);
    }
    hide Dist2, Plus;
  }

  /** Two runs in step: the same decisions, and everything that is a position differs by t. */
  ghost predicate InStep(r: Run, r': Run, t: Vec) {
    && r'.depth == r.depth
    && r'.ok == r.ok
    && r'.state.r2 == r.state.r2
    && r'.offset == Plus(r.offset, t)
    && Shifted(r.centers, r'.centers, t)
  }

  ghost predicate SamplesShifted(samples: seq<Sample>, samples': seq<Sample>, t: Vec) {
    && |samples| == |samples'|
    && forall i :: 0 <= i < |samples| ==>
         samples'[i].v == Plus(samples[i].v, t) && Shifted(samples[i].stale, samples'[i].stale, t)
  }

  lemma NewestOfShifted(samples: seq<Sample>, samples': seq<Sample>, t: Vec, k: nat)
    requires SamplesShifted(samples, samples', t) && k <= |samples|
    ensures Shifted(Newest(samples, k), Newest(samples', k), t)
  {
    hide Plus;
  }

  /** The windows of two runs in step, and whether each is large enough. */
  lemma WindowsInStep(init: seq<Sample>, init': seq<Sample>, r: Run, r': Run, last: Sample, last': Sample, t: Vec)
    requires HoldsMostRecent(init, r) && HoldsMostRecent(init', r') && r'.depth == r.depth
    requires SamplesInRange(init + [last]) && SamplesInRange(init' + [last'])
    requires SamplesShifted(init + [last], init' + [last'], t)
    ensures Shifted(Window(Pushed(r.state.hbuf, last.v)), Window(Pushed(r'.state.hbuf, last'.v)), t)
  {
    hide Window, Pushed, SamplesInRange, SamplesShifted;
    WindowIsNewest(init, r, last);
    WindowIsNewest(init', r', last');
    NewestOfShifted(init + [last], init' + [last'], t, Min(r.depth + 1, HBUF_SIZE));
  }

  /** The buffer of centres of two runs in step: equally full, and shifted once it is full. */
  lemma CentersInStep(samples: seq<Sample>, samples': seq<Sample>, r: Run, r': Run, t: Vec)
    requires HoldsMostRecent(samples, r) && HoldsMostRecent(samples', r')
    requires AllInRange(r.centers, 5.0 * LIMIT) && AllInRange(r'.centers, 5.0 * LIMIT)
    requires Shifted(r.centers, r'.centers, t)
    ensures IsEmpty(r'.state.hobuf[HOBUF_SIZE - 1]) == IsEmpty(r.state.hobuf[HOBUF_SIZE - 1])
    ensures !IsEmpty(r.state.hobuf[HOBUF_SIZE - 1]) ==> Shifted(r.state.hobuf, r'.state.hobuf, t)
  {
    hide Plus, InRange, HoldsMostRecent;
    if |r.centers| < HOBUF_SIZE {
      SparseCenters(samples, r);
      SparseCenters(samples', r');
    } else {
      DenseCenters(samples, r);
      DenseCenters(samples', r');
    }
  }

  lemma SparseCenters(samples: seq<Sample>, r: Run)
    requires HoldsMostRecent(samples, r) && |r.centers| < HOBUF_SIZE
    ensures IsEmpty(r.state.hobuf[HOBUF_SIZE - 1])
  {
    LastSlotIsEmpty(r.centers, HOBUF_SIZE);
  }

  lemma DenseCenters(samples: seq<Sample>, r: Run)
    requires HoldsMostRecent(samples, r) && |r.centers| >= HOBUF_SIZE && AllInRange(r.centers, 5.0 * LIMIT)
    ensures r.state.hobuf == r.centers[..HOBUF_SIZE]
    ensures !IsEmpty(r.state.hobuf[HOBUF_SIZE - 1])
  {
    hide InRange;
    InRangeIsReadable(r.centers[HOBUF_SIZE - 1]);
  }

  /** The judgement on the fit of two shifted windows. */
  lemma FitInStep(w: seq<Vec>, w': seq<Vec>, stale: Stale, stale': Stale, t: Vec)
    requires |w| >= 4 && Shifted(w, w', t) && Shifted(stale, stale', t)
    ensures var f, f' := FitSphere(FourPoints(w, stale)), FitSphere(FourPoints(w', stale'));
            && f'.NoFit? == f.NoFit?
            && (f.Sphere? ==> f'.center == Plus(f.center, t) && f'.r2 == f.r2)
            && (f.Sphere? ==> Spread(FourPoints(w', stale'), f.r2) == Spread(FourPoints(w, stale), f.r2))
  {
    hide FourPoints, FitSphere, Spread, Plus;
    FourPointsOfShifted(w, w', stale, stale', t);
    FitOfShifted(FourPoints(w, stale), FourPoints(w', stale'), t);
    if FitSphere(FourPoints(w, stale)).Sphere? {
      SpreadOfShifted(FourPoints(w, stale), FourPoints(w', stale'), t, FitSphere(FourPoints(w, stale)).r2);
    }
  }

  /** What a step decides, before the centres are compared. */
  function Judge(w: seq<Vec>, stale: Stale, r2: real): (real, Option<Vec>) {
    if |w| < 4 then (r2, None) else
    var p := FourPoints(w, stale);
    match FitSphere(p)
    case NoFit => (r2, None)
    case Sphere(c, q) => (q, if Spread(p, q) then Some(c) else None)
  }

  lemma StepByJudgement(s: State, v: Vec, ho: Vec, stale: Stale)
    ensures var o := Step(s, v, ho, stale);
            var (q, c) := Judge(Window(Pushed(s.hbuf, v)), stale, s.r2);
            && o.accepted == c
            && o.state.r2 == q
            && o.ok == (c.Some? && !IsEmpty(o.state.hobuf[HOBUF_SIZE - 1]) && Agree(o.state.hobuf, q))
            && o.offset == if o.ok then Midpoint(High(o.state.hobuf), Low(o.state.hobuf)) else ho
  {
    hide Occupied, Window, FourPoints, FitSphere, Spread, Agree, High, Low, Midpoint;
  }

  lemma JudgeInStep(w: seq<Vec>, w': seq<Vec>, stale: Stale, stale': Stale, t: Vec, r2: real)
    requires Shifted(w, w', t) && Shifted(stale, stale', t)
    ensures var (q, c), (q', c') := Judge(w, stale, r2), Judge(w', stale', r2);
            q' == q && c'.Some? == c.Some? && (c.Some? ==> c'.value == Plus(c.value, t))
  {
    hide FourPoints, FitSphere, Spread, Plus;
    if |w| >= 4 {
      FitInStep(w, w', stale, stale', t);
    }
  }

  lemma AdvanceByJudgement(r: Run, last: Sample)
    ensures var r' := Advance(r, last);
            var (q, c) := Judge(Window(Pushed(r.state.hbuf, last.v)), last.stale, r.state.r2);
            && r'.depth == (if c.Some? then Min(Min(r.depth + 1, HBUF_SIZE), HBUF_SIZE / 2)
                            else Min(r.depth + 1, HBUF_SIZE))
            && r'.centers == (if c.Some? then [c.value] + r.centers else r.centers)
            && r'.state.r2 == q
            && r'.ok == (c.Some? && !IsEmpty(r'.state.hobuf[HOBUF_SIZE - 1]) && Agree(r'.state.hobuf, q))
            && r'.offset == if r'.ok then Midpoint(High(r'.state.hobuf), Low(r'.state.hobuf)) else r.offset
  {
    hide Step, Judge, Window, Pushed, Agree, High, Low, Midpoint;
    StepByJudgement(r.state, last.v, r.offset, last.stale);
  }

  lemma AdvanceInStep(init: seq<Sample>, init': seq<Sample>, r: Run, r': Run, last: Sample, last': Sample, t: Vec)
    requires HoldsMostRecent(init, r) && HoldsMostRecent(init', r') && InStep(r, r', t)
    requires SamplesInRange(init + [last]) && SamplesInRange(init' + [last'])
    requires SamplesShifted(init + [last], init' + [last'], t) && Shifted(last.stale, last'.stale, t)
    requires AllInRange(Advance(r, last).centers, 5.0 * LIMIT) && AllInRange(Advance(r', last').centers, 5.0 * LIMIT)
    ensures InStep(Advance(r, last), Advance(r', last'), t)
  {
    hide Advance, Judge, Window, Pushed, Agree, High, Low, Midpoint, Plus, IsEmpty, HoldsMostRecent, InRange;
    hide SamplesShifted, SamplesInRange, AllInRange;
    var w, w' := Window(Pushed(r.state.hbuf, last.v)), Window(Pushed(r'.state.hbuf, last'.v));
    WindowsInStep(init, init', r, r', last, last', t);
    JudgeInStep(w, w', last.stale, last'.stale, t, r.state.r2);
    AdvanceByJudgement(r, last);
    AdvanceByJudgement(r', last');
    AdvanceHoldsMostRecent(init, r, last);
    AdvanceHoldsMostRecent(init', r', last');
    var s, s' := Advance(r, last), Advance(r', last');
    CentersInStep(init + [last], init' + [last'], s, s', t);
    if !IsEmpty(s.state.hobuf[HOBUF_SIZE - 1]) {
      AgreementOfShifted(s.state.hobuf, s'.state.hobuf, t, s.state.r2);
    }
  }

  /** Main result: over whole runs, a bias t on the samples, the initial offset and the uninitialised points is
    carried to the offset and the centres and changes no decision and no radius. */
  lemma {:induction false} BiasInvariance(offset: Vec, samples: seq<Sample>, samples': seq<Sample>, t: Vec)
    requires SamplesShifted(samples, samples', t) && SamplesInRange(samples) && SamplesInRange(samples')
    ensures InStep(RunOf(offset, samples), RunOf(Plus(offset, t), samples'), t)
  {
    hide *;
    EqualLengths(samples, samples', t);
    if samples == [] {
      EmptyRunsInStep(offset, t);
    } else {
      var r, last := LastStep(offset, samples);
      var r', last' := LastStep(Plus(offset, t), samples');
      var n := |samples| - 1;
      var init, init' := samples[..n], samples'[..n];
      assert samples == init + [last] && samples' == init' + [last'];
      PrefixInRange(init, last);
      PrefixInRange(init', last');
      PrefixShifted(init, init', last, last', t);
      BiasInvariance(offset, init, init', t);
      WindowsHoldMostRecent(offset, init);
      WindowsHoldMostRecent(Plus(offset, t), init');
      CentersInRange(offset, samples);
      CentersInRange(Plus(offset, t), samples');
      AdvanceInStep(init, init', r, r', last, last', t);
    }
  }

  lemma PrefixShifted(init: seq<Sample>, init': seq<Sample>, last: Sample, last': Sample, t: Vec)
    requires SamplesShifted(init + [last], init' + [last'], t)
    ensures SamplesShifted(init, init', t) && last'.v == Plus(last.v, t) && Shifted(last.stale, last'.stale, t)
  {
    hide Plus, Shifted;
    var s, s' := init + [last], init' + [last'];
    assert forall i :: 0 <= i < |init| ==> s[i] == init[i] && s'[i] == init'[i];
    assert s[|init|] == last && s'[|init|] == last';
  }

  lemma EqualLengths(samples: seq<Sample>, samples': seq<Sample>, t: Vec)
    requires SamplesShifted(samples, samples', t)
    ensures |samples| == |samples'|
  {
  }

  lemma EmptyRunsInStep(offset: Vec, t: Vec)
    ensures InStep(RunOf(offset, []), RunOf(Plus(offset, t), []), t)
  {
  }
}
