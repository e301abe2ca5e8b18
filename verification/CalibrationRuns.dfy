/** What holds of the calibration over every run of samples. */
module CalibrationRuns {
  import opened Options
  import opened Vectors
  import opened Buffers
  import opened SphereFit
  import opened ExtremalPoints
  import opened Calibration

  /** One sample, with what the stack held when it was processed. */
  datatype Sample = Sample(v: Vec, stale: Stale)

  /** A run: the state and offset reached, how many samples the window still holds, the accepted centres
    (newest first), and whether the last call reported success. */
  datatype Run = Run(state: State, offset: Vec, depth: nat, centers: seq<Vec>, ok: bool)

  function Min(a: nat, b: nat): nat {
    if a < b then a else b
  }

  function Advance(r: Run, sample: Sample): Run {
    var o := Step(r.state, sample.v, r.offset, sample.stale);
    var depth := Min(r.depth + 1, HBUF_SIZE);
    match o.accepted
    case None => Run(o.state, o.offset, depth, r.centers, o.ok)
    case Some(c) => Run(o.state, o.offset, Min(depth, HBUF_SIZE / 2), [c] + r.centers, o.ok)
  }

  function RunOf(offset: Vec, samples: seq<Sample>): Run {
    if samples == [] then Run(INITIAL, offset, 0, [], false) else
    Advance(RunOf(offset, samples[..|samples| - 1]), samples[|samples| - 1])
  }

  /** The k most recent samples, newest first. */
  function Newest(samples: seq<Sample>, k: nat): (r: seq<Vec>)
    requires k <= |samples|
    ensures |r| == k
  {
    seq(k, i requires 0 <= i < k => samples[|samples| - 1 - i].v)
  }

  /** A window: some entries followed by empty slots only. */
  function Filled(entries: seq<Vec>, size: nat): seq<Vec>
    requires |entries| <= size
  {
    entries + Sentinels(size - |entries|)
  }

  lemma PushedOntoFilled(entries: seq<Vec>, size: nat, v: Vec)
    requires |entries| <= size && 0 < size
    ensures Pushed(Filled(entries, size), v)
         == if |entries| < size then Filled([v] + entries, size) else Filled([v] + entries[..size - 1], size)
  {
  }

  lemma OccupiedOfFilled(entries: seq<Vec>)
    requires |entries| <= HBUF_SIZE
    ensures Occupied(Filled(entries, HBUF_SIZE)) <= |entries|
    ensures (forall i :: 0 <= i < |entries| ==> !IsEmpty(entries[i])) ==>
              Occupied(Filled(entries, HBUF_SIZE)) == if |entries| >= 4 then |entries| else 0
  {
    OccupiedIsLastFilledSlot(Filled(entries, HBUF_SIZE), |entries|);
    assert Filled(entries, HBUF_SIZE)[..|entries|] == entries;
    OccupiedInRange(entries);
  }

  /** An accepted step: the effect on both windows. */
  lemma StepEffect(s: State, v: Vec, ho: Vec, stale: Stale)
    ensures var o := Step(s, v, ho, stale);
            && (o.accepted.None? ==> o.state.hbuf == Pushed(s.hbuf, v) && o.state.hobuf == s.hobuf && !o.ok)
            && (o.accepted.Some? ==>
                 && o.state.hbuf == Pushed(s.hbuf, v)[..HBUF_SIZE / 2] + Sentinels(HBUF_SIZE / 2)
                 && o.state.hobuf == Pushed(s.hobuf, o.accepted.value)
                 && Occupied(Pushed(s.hbuf, v)) >= 4)
            && (!o.ok ==> o.offset == ho)
  {
    hide Occupied, FourPoints, FitSphere, Spread, Agree, High, Low, Midpoint;
  }

  /** Both buffers hold exactly the most recent entries, newest first, then only empty slots; and every accepted
    centre needed a sample of its own, the first one four samples. */
  ghost predicate HoldsMostRecent(samples: seq<Sample>, r: Run) {
    && r.depth <= |samples| && r.depth <= HBUF_SIZE
    && r.state.hbuf == Filled(Newest(samples, r.depth), HBUF_SIZE)
    && r.state.hobuf == Filled(r.centers[..Min(|r.centers|, HOBUF_SIZE)], HOBUF_SIZE)
    && (r.centers == [] || |r.centers| + 3 <= |samples|)
  }

  lemma NewestGrows(init: seq<Sample>, k: nat, last: Sample)
    requires k <= |init| && k <= HBUF_SIZE
    ensures var entries := Newest(init, k);
            Newest(init + [last], Min(k + 1, HBUF_SIZE))
            == if k < HBUF_SIZE then [last.v] + entries else [last.v] + entries[..HBUF_SIZE - 1]
  {
  }

  /** The window after one more sample, before an accepted fit cuts it. */
  lemma PushedWindow(init: seq<Sample>, r: Run, last: Sample)
    requires HoldsMostRecent(init, r)
    ensures Pushed(r.state.hbuf, last.v) == Filled(Newest(init + [last], Min(r.depth + 1, HBUF_SIZE)), HBUF_SIZE)
    ensures Occupied(Pushed(r.state.hbuf, last.v)) <= Min(r.depth + 1, HBUF_SIZE)
  {
    hide Pushed, Occupied, Sentinels, Newest;
    var entries := Newest(init, r.depth);
    PushedOntoFilled(entries, HBUF_SIZE, last.v);
    var pushed := if r.depth < HBUF_SIZE then [last.v] + entries else [last.v] + entries[..HBUF_SIZE - 1];
    NewestGrows(init, r.depth, last);
    hide Filled;
    OccupiedOfFilled(pushed);
  }

  lemma CutWindow(samples: seq<Sample>, k: nat)
    requires k <= |samples| && k <= HBUF_SIZE
    ensures Filled(Newest(samples, k), HBUF_SIZE)[..HBUF_SIZE / 2] + Sentinels(HBUF_SIZE / 2)
         == Filled(Newest(samples, Min(k, HBUF_SIZE / 2)), HBUF_SIZE)
  {
  }

  lemma PushedCenters(centers: seq<Vec>, c: Vec)
    ensures Pushed(Filled(centers[..Min(|centers|, HOBUF_SIZE)], HOBUF_SIZE), c)
         == Filled(([c] + centers)[..Min(|centers| + 1, HOBUF_SIZE)], HOBUF_SIZE)
  {
    var k := Min(|centers|, HOBUF_SIZE);
    PushedOntoFilled(centers[..k], HOBUF_SIZE, c);
    hide Pushed, Filled;
    if k < HOBUF_SIZE {
      assert [c] + centers[..k] == ([c] + centers)[..k + 1];
    } else {
      assert [c] + centers[..k][..k - 1] == ([c] + centers)[..k];
    }
  }

  lemma AdvanceHoldsMostRecent(init: seq<Sample>, r: Run, last: Sample)
    requires HoldsMostRecent(init, r)
    ensures HoldsMostRecent(init + [last], Advance(r, last))
  {
    hide Step, Pushed, Occupied, Filled, Newest, Sentinels;
    StepEffect(r.state, last.v, r.offset, last.stale);
    PushedWindow(init, r, last);
    CutWindow(init + [last], Min(r.depth + 1, HBUF_SIZE));
    var o := Step(r.state, last.v, r.offset, last.stale);
    if o.accepted.Some? {
      PushedCenters(r.centers, o.accepted.value);
    }
  }

  lemma InitialWindows(offset: Vec)
    ensures HoldsMostRecent([], Run(INITIAL, offset, 0, [], false))
  {
    assert Filled(Newest([], 0), HBUF_SIZE) == Sentinels(HBUF_SIZE);
    assert Filled([], HOBUF_SIZE) == Sentinels(HOBUF_SIZE);
  }

  /** In every reachable state. */
  lemma {:induction false} WindowsHoldMostRecent(offset: Vec, samples: seq<Sample>)
    ensures HoldsMostRecent(samples, RunOf(offset, samples))
  {
    hide Advance, HoldsMostRecent;
    if samples == [] {
      InitialWindows(offset);
    } else {
      var init, last := samples[..|samples| - 1], samples[|samples| - 1];
      WindowsHoldMostRecent(offset, init);
      AdvanceHoldsMostRecent(init, RunOf(offset, init), last);
      assert init + [last] == samples;
    }
  }

  /** The number of samples used for a fit is the depth of the window, as soon as there are four. */
  lemma SamplesUsedForFit(offset: Vec, samples: seq<Sample>, last: Sample)
    requires forall i :: 0 <= i < |samples| ==> !IsEmpty(samples[i].v)
    requires !IsEmpty(last.v)
    ensures var r := RunOf(offset, samples);
            var k := Min(r.depth + 1, HBUF_SIZE);
            Occupied(Pushed(r.state.hbuf, last.v)) == if k >= 4 then k else 0
  {
    hide RunOf, Occupied, IsEmpty;
    WindowsHoldMostRecent(offset, samples);
    var r := RunOf(offset, samples);
    PushedWindow(samples, r, last);
    hide Filled, Pushed;
    OccupiedOfFilled(Newest(samples + [last], Min(r.depth + 1, HBUF_SIZE)));
  }

  /** What a step that accepts a fit has established about the sphere. */
  lemma AcceptedSphere(s: State, v: Vec, ho: Vec, stale: Stale, c: Vec)
    requires Step(s, v, ho, stale).accepted == Some(c)
    ensures |Window(Pushed(s.hbuf, v))| >= 4
    ensures var p := FourPoints(Window(Pushed(s.hbuf, v)), stale);
            var r2 := Step(s, v, ho, stale).state.r2;
            && (forall i :: 0 <= i < 4 ==> Dist2(p[i], c) == r2)
            && Spread(p, r2)
            && r2 >= 25.0
  {
    hide FourPoints, FitSphere, Dist2, Agree, High, Low, Midpoint, Occupied;
    var p := FourPoints(Window(Pushed(s.hbuf, v)), stale);
    FitIsTheSphere(p);
    ChordAtMostDiameter(p[0], p[1], c, FitSphere(p).r2);
  }

  /** An accepted centre is the one point equidistant from four samples of the window if and only if the window is not
    planar. */
  lemma AcceptedCenterIsOfSamplesIff(s: State, v: Vec, ho: Vec, stale: Stale, c: Vec)
    requires Step(s, v, ho, stale).accepted == Some(c)
    ensures |Window(Pushed(s.hbuf, v))| >= 4
    ensures !Planar(Window(Pushed(s.hbuf, v))) <==>
              exists p :: DeterminesCenter(Window(Pushed(s.hbuf, v)), p, c)
  {
    hide Step, FourPoints, FitSphere, Dist2, Planar, Window, Pushed, Spread;
    AcceptedSphere(s, v, ho, stale, c);
    var w := Window(Pushed(s.hbuf, v));
    var p := FourPoints(w, stale);
    AcceptedIsFitted(s, v, ho, stale, c);
    FitIsTheSphere(p);
    if Planar(w) {
      forall q | |q| == 4 && (forall i :: 0 <= i < 4 ==> q[i] in w) && Equidistant(q, c)
        ensures !DeterminesCenter(w, q, c)
      {
        var b := PlanarWindowLeavesCentreOpen(w, q, c);
      }
    } else {
      SpatialWindowGivesTetrahedron(w, stale);
      assert Equidistant(p, c);
      assert DeterminesCenter(w, p, c);
    }
  }

  /** Four samples of the window have c as their only equidistant point. */
  ghost predicate DeterminesCenter(w: seq<Vec>, p: seq<Vec>, c: Vec) {
    && |p| == 4 && (forall i :: 0 <= i < 4 ==> p[i] in w)
    && Equidistant(p, c) && forall b :: Equidistant(p, b) ==> b == c
  }

  /** No four samples of a planar window have just one equidistant point. */
  lemma PlanarWindowLeavesCentreOpen(w: seq<Vec>, p: seq<Vec>, c: Vec) returns (b: Vec)
    requires |w| > 0 && Planar(w)
    requires |p| == 4 && (forall i :: 0 <= i < 4 ==> p[i] in w) && Equidistant(p, c)
    ensures Equidistant(p, b) && b != c
  {
    hide Dot, Minus, Planar, Equidistant;
    var u := PlanarWindowHasNormal(w);
    forall i | 0 <= i < 3
      ensures Dot(Minus(p[i], p[3]), u) == 0.0
    {
      NormalToDifference(p[i], p[3], w[0], u);
    }
    EquidistantAlongNormal(p, c, u);
    b := Plus(c, u);
  }

  lemma NormalToDifference(a: Vec, b: Vec, o: Vec, u: Vec)
    requires Dot(Minus(a, o), u) == 0.0 && Dot(Minus(b, o), u) == 0.0
    ensures Dot(Minus(a, b), u) == 0.0
  {
    assert Minus(Minus(a, o), Minus(b, o)) == Minus(a, b);
    hide Dot, Minus;
    DotDifference(u, Minus(a, o), Minus(b, o));
    DotCommutes(u, Minus(a, o));
    DotCommutes(u, Minus(b, o));
    DotCommutes(u, Minus(a, b));
  }

  lemma AcceptedIsFitted(s: State, v: Vec, ho: Vec, stale: Stale, c: Vec)
    requires Step(s, v, ho, stale).accepted == Some(c)
    ensures |Window(Pushed(s.hbuf, v))| >= 4
    ensures var f := FitSphere(FourPoints(Window(Pushed(s.hbuf, v)), stale)); f.Sphere? && f.center == c
  {
    hide FourPoints, FitSphere, Spread, Agree, High, Low, Midpoint, Occupied;
  }

  /** A planar window does not rule out acceptance: after three equal samples, a fourth one equal to them is fitted
    through points that were only left over on the stack. */
  lemma LeftoverPointsCanBeAccepted(offset: Vec) returns (samples: seq<Sample>, last: Sample)
    ensures AcceptsPlanarWindowAfter(offset, samples, last)
    ensures |samples| == 3 && forall i :: 0 <= i < 3 ==> samples[i] == last
  {
    hide *;
    var stale: Stale := [ZERO, Vec(0.0, 20.0, 0.0), Vec(0.0, 0.0, 20.0), Vec(0.0, 0.0, 0.0)];
    last := Sample(Vec(20.0, 0.0, 0.0), stale);
    samples := [last, last, last];
    FourEqualSamplesAccepted(offset, samples, last);
  }

  /** The run of some samples reaches a state in which one more sample leaves a planar window and is accepted. */
  ghost predicate AcceptsPlanarWindowAfter(offset: Vec, samples: seq<Sample>, last: Sample) {
    var r := RunOf(offset, samples);
    AcceptsPlanarWindow(r.state, last.v, r.offset, last.stale)
  }

  lemma FourEqualSamplesAccepted(offset: Vec, samples: seq<Sample>, last: Sample)
    requires samples == [last, last, last] && last.v == Vec(20.0, 0.0, 0.0)
    requires last.stale == [ZERO, Vec(0.0, 20.0, 0.0), Vec(0.0, 0.0, 20.0), Vec(0.0, 0.0, 0.0)]
    ensures AcceptsPlanarWindowAfter(offset, samples, last)
  {
    hide RunOf, AcceptsPlanarWindow, Window, Pushed;
    FourEqualSamples(offset, last, samples);
    var r := RunOf(offset, samples);
    EqualWindowAccepted(r.state, last.v, r.offset, last.stale);
  }

  lemma EqualWindowAccepted(s: State, v: Vec, ho: Vec, stale: Stale)
    requires v == Vec(20.0, 0.0, 0.0) && Window(Pushed(s.hbuf, v)) == [v, v, v, v]
    requires stale == [ZERO, Vec(0.0, 20.0, 0.0), Vec(0.0, 0.0, 20.0), Vec(0.0, 0.0, 0.0)]
    ensures AcceptsPlanarWindow(s, v, ho, stale)
  {
    hide AcceptsPlanarWindow, Window, Pushed, FourPoints, FitSphere, Spread, Planar, Step;
    var w := Window(Pushed(s.hbuf, v));
    EqualSamplesArePlanar(w);
    EqualSamplesAccepted(v, stale, w);
    AcceptedWhenFitted(s, v, ho, stale);
    PlanarAcceptance(s, v, ho, stale);
  }

  ghost predicate AcceptsPlanarWindow(s: State, v: Vec, ho: Vec, stale: Stale) {
    var w := Window(Pushed(s.hbuf, v));
    |w| >= 4 && Planar(w) && Step(s, v, ho, stale).accepted.Some?
  }

  lemma PlanarAcceptance(s: State, v: Vec, ho: Vec, stale: Stale)
    requires |Window(Pushed(s.hbuf, v))| >= 4 && Planar(Window(Pushed(s.hbuf, v)))
    requires Step(s, v, ho, stale).accepted.Some?
    ensures AcceptsPlanarWindow(s, v, ho, stale)
  {
    hide Step, Planar, Window;
  }

  lemma FourEqualSamples(offset: Vec, last: Sample, samples: seq<Sample>)
    requires samples == [last, last, last] && last.v == Vec(20.0, 0.0, 0.0)
    ensures Window(Pushed(RunOf(offset, samples).state.hbuf, last.v)) == [last.v, last.v, last.v, last.v]
  {
    var w := [last.v, last.v, last.v, last.v];
    hide Occupied, Step, RunOf, Pushed, Filled;
    WindowsHoldMostRecent(offset, samples);
    ThreeSamplesAreHeld(offset, samples);
    PushedWindow(samples, RunOf(offset, samples), last);
    assert Newest(samples + [last], 4) == w;
    OccupiedOfFilled(w);
    PrefixOfFilled(w, HBUF_SIZE);
  }

  lemma ThreeSamplesAreHeld(offset: Vec, samples: seq<Sample>)
    requires |samples| == 3
    ensures RunOf(offset, samples).depth == 3
  {
    hide Step;
    assert samples[..2][..1] == samples[..1] && samples[..1][..0] == [];
    DepthAfterSample(offset, samples[..1]);
    DepthAfterSample(offset, samples[..2]);
    DepthAfterSample(offset, samples);
  }

  /** Up to ten samples no accepted fit cuts the window. */
  lemma DepthAfterSample(offset: Vec, samples: seq<Sample>)
    requires 0 < |samples| && RunOf(offset, samples[..|samples| - 1]).depth < HBUF_SIZE / 2
    ensures RunOf(offset, samples).depth == RunOf(offset, samples[..|samples| - 1]).depth + 1
  {
    hide Step;
  }

  lemma PrefixOfFilled(entries: seq<Vec>, size: nat)
    requires |entries| <= size
    ensures Filled(entries, size)[..|entries|] == entries
  {
  }

  lemma EqualSamplesArePlanar(w: seq<Vec>)
    requires |w| > 0 && forall i :: 0 <= i < |w| ==> w[i] == w[0]
    ensures Planar(w)
  {
    hide Triple;
    assert Minus(w[0], w[0]) == ZERO;
    ZeroIsDependent(ZERO, ZERO, ZERO);
  }

  lemma EqualSamplesAccepted(v: Vec, stale: Stale, w: seq<Vec>)
    requires v == Vec(20.0, 0.0, 0.0) && w == [v, v, v, v]
    requires stale == [ZERO, Vec(0.0, 20.0, 0.0), Vec(0.0, 0.0, 20.0), Vec(0.0, 0.0, 0.0)]
    ensures var p := FourPoints(w, stale);
            FitSphere(p).Sphere? && Spread(p, FitSphere(p).r2)
  {
    hide FourPoints, FitSphere, Spread, Dist2;
    EqualSamplesChooseNothing(w, stale);
    var p := [v, Vec(0.0, 20.0, 0.0), Vec(0.0, 0.0, 20.0), Vec(0.0, 0.0, 0.0)];
    assert FourPoints(w, stale) == p;
    var m := Vec(10.0, 10.0, 10.0);
    SwappedCornerIsFitted(p);
    CornerDistances(m);
    assert Equidistant(p, m);
    FitWithKnownCenter(p, m);
    SwappedCornerIsSpread(p);
  }

  lemma SwappedCornerIsSpread(p: seq<Vec>)
    requires p == [Vec(20.0, 0.0, 0.0), Vec(0.0, 20.0, 0.0), Vec(0.0, 0.0, 20.0), Vec(0.0, 0.0, 0.0)]
    ensures Spread(p, 300.0)
  {
    assert Dist2(p[0], p[1]) == 800.0 && Dist2(p[0], p[2]) == 800.0 && Dist2(p[0], p[3]) == 400.0;
    assert Dist2(p[1], p[2]) == 800.0 && Dist2(p[1], p[3]) == 400.0 && Dist2(p[2], p[3]) == 400.0;
    hide Dist2;
  }

  lemma AcceptedWhenFitted(s: State, v: Vec, ho: Vec, stale: Stale)
    requires |Window(Pushed(s.hbuf, v))| >= 4
    requires var p := FourPoints(Window(Pushed(s.hbuf, v)), stale); FitSphere(p).Sphere? && Spread(p, FitSphere(p).r2)
    ensures Step(s, v, ho, stale).accepted.Some?
  {
    hide FourPoints, FitSphere, Spread, Agree, High, Low, Midpoint, Window;
  }

  lemma HalfOfBox(v: seq<Vec>, r2: real, i: nat)
    requires i < |v| && Agree(v, r2)
    ensures Within(v[i], Midpoint(High(v), Low(v)), 0.005625 * r2)
  {
    BoxContains(v);
    hide High, Low, Below, Within, Midpoint;
    NearMidpoint(Low(v), High(v), v[i], HO_TH2 * r2);
  }

  lemma NearMidpoint(lo: Vec, hi: Vec, v: Vec, q: real)
    requires Below(lo, v) && Below(v, hi) && Within(hi, lo, q)
    ensures Within(v, Midpoint(hi, lo), q / 4.0)
  {
    HalfInterval(lo.x, hi.x, v.x, q);
    HalfInterval(lo.y, hi.y, v.y, q);
    HalfInterval(lo.z, hi.z, v.z, q);
  }

  lemma HalfInterval(lo: real, hi: real, x: real, q: real)
    requires lo <= x <= hi && (hi - lo) * (hi - lo) < q
    ensures (x - (hi + lo) / 2.0) * (x - (hi + lo) / 2.0) < q / 4.0
  {
    assert (hi - lo) * (hi - lo) - 4.0 * ((x - (hi + lo) / 2.0) * (x - (hi + lo) / 2.0)) == 4.0 * ((hi - x) * (x - lo));
    assert (hi - x) * (x - lo) >= 0.0;
  }

  lemma SuccessfulAdvance(samples: seq<Sample>, s: Run, last: Sample, r: Run)
    requires r == Advance(s, last) && r.ok && HoldsMostRecent(samples, r)
    ensures |samples| >= 7 && |r.centers| >= 4 && r.state.r2 >= 25.0
    ensures forall i :: 0 <= i < 4 ==> Within(r.centers[i], r.offset, 0.005625 * r.state.r2)
  {
    hide Step, Agree, Within, High, Low, Midpoint, Window, Pushed, FourPoints, Spread, Dist2;
    SuccessfulStep(s.state, last.v, s.offset, last.stale);
    AcceptedSphere(s.state, last.v, s.offset, last.stale, r.centers[0]);
    FullCenters(samples, r);
    hide HoldsMostRecent;
    forall i | 0 <= i < 4
      ensures Within(r.centers[i], r.offset, 0.005625 * r.state.r2)
    {
      HalfOfBox(r.state.hobuf, r.state.r2, i);
    }
  }

  /** Whenever success is reported, at least seven samples were seen, the radius is at least 5, and the last four
    accepted centres are each closer to the reported offset than 0.075 of the radius, on every axis. */
  lemma SuccessMeansAgreement(offset: Vec, samples: seq<Sample>)
    requires RunOf(offset, samples).ok
    ensures var r := RunOf(offset, samples);
            && |samples| >= 7
            && |r.centers| >= 4
            && r.state.r2 >= 25.0
            && forall i :: 0 <= i < 4 ==> Within(r.centers[i], r.offset, 0.005625 * r.state.r2)
  {
    hide *;
    NothingReportedYet(offset);
    var s, last := LastStep(offset, samples);
    WindowsHoldMostRecent(offset, samples);
    SuccessfulAdvance(samples, s, last, RunOf(offset, samples));
  }

  lemma NothingReportedYet(offset: Vec)
    ensures !RunOf(offset, []).ok && RunOf(offset, []).centers == [] && RunOf(offset, []).offset == offset
  {
  }

  lemma LastStep(offset: Vec, samples: seq<Sample>) returns (s: Run, last: Sample)
    requires samples != []
    ensures s == RunOf(offset, samples[..|samples| - 1]) && last == samples[|samples| - 1]
    ensures RunOf(offset, samples) == Advance(s, last)
  {
    s, last := RunOf(offset, samples[..|samples| - 1]), samples[|samples| - 1];
  }

  lemma LastSlotIsEmpty(entries: seq<Vec>, size: nat)
    requires |entries| < size
    ensures Filled(entries, size)[size - 1] == SENTINEL
    ensures entries[..|entries|] == entries
  {
  }

  lemma FullCenters(samples: seq<Sample>, r: Run)
    requires HoldsMostRecent(samples, r) && !IsEmpty(r.state.hobuf[HOBUF_SIZE - 1])
    ensures |r.centers| >= HOBUF_SIZE && r.state.hobuf == r.centers[..HOBUF_SIZE]
  {
    if |r.centers| < HOBUF_SIZE {
      LastSlotIsEmpty(r.centers, HOBUF_SIZE);
      assert false;
    }
  }

  lemma SuccessfulStep(s: State, v: Vec, ho: Vec, stale: Stale)
    requires Step(s, v, ho, stale).ok
    ensures var o := Step(s, v, ho, stale);
            && o.accepted.Some?
            && !IsEmpty(o.state.hobuf[HOBUF_SIZE - 1])
            && Agree(o.state.hobuf, o.state.r2)
            && o.offset == Midpoint(High(o.state.hobuf), Low(o.state.hobuf))
  {
    hide Occupied, FourPoints, FitSphere, Spread, Agree, High, Low, Midpoint;
  }

  /** A call that does not report success leaves the offset alone. */
  lemma FailureKeepsOffset(offset: Vec, samples: seq<Sample>)
    requires samples != [] && !RunOf(offset, samples).ok
    ensures RunOf(offset, samples).offset == RunOf(offset, samples[..|samples| - 1]).offset
  {
    hide Step, Window, Pushed;
    var s, last := LastStep(offset, samples);
    StepEffect(s.state, last.v, s.offset, last.stale);
  }
}
