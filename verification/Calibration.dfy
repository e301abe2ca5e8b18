/** The automatic offset calibration (akfs_aoc.c, `AKFS_AOC`): a window of samples, a sphere through four of
  them, and an offset that is reported once four accepted centres agree. */
module Calibration {
  import opened Options
  import opened Vectors
  import opened Buffers
  import opened SphereFit
  import opened ExtremalPoints

  const HBUF_SIZE := 20
  const HOBUF_SIZE := 4
  /** Square of the least distance between two of the four points. */
  const HR_TH2: real := 100.0
  /** Square of the largest spread of the centres, relative to the radius. */
  const HO_TH2: real := 0.0225

  /** What the stack held where `fourpoints` is placed. */
  type Stale = p: seq<Vec> | |p| == 4 witness [ZERO, ZERO, ZERO, ZERO]

  datatype RawState = State(hbuf: seq<Vec>, hobuf: seq<Vec>, r2: real)
  type State = s: RawState | |s.hbuf| == HBUF_SIZE && |s.hobuf| == HOBUF_SIZE
    witness State(Sentinels(HBUF_SIZE), Sentinels(HOBUF_SIZE), 0.0)

  const INITIAL: State := State(Sentinels(HBUF_SIZE), Sentinels(HOBUF_SIZE), 0.0)

  /** The number of leading slots to use: up to the last occupied slot, or 0 when that is before the fourth. */
  function Occupied(h: seq<Vec>): nat {
    if |h| <= 3 then 0 else
    if !IsEmpty(h[|h| - 1]) then |h| else Occupied(h[..|h| - 1])
  }

  /** The distance test: every pair of points at least one radius and at least the threshold apart. */
  predicate Spread(p: seq<Vec>, r2: real) {
    forall i, j :: 0 <= i < j < |p| ==> Dist2(p[i], p[j]) >= r2 && Dist2(p[i], p[j]) >= HR_TH2
  }

  function Least(a: Vec, b: Vec): Vec {
    Vec(if b.x < a.x then b.x else a.x, if b.y < a.y then b.y else a.y, if b.z < a.z then b.z else a.z)
  }

  function Greatest(a: Vec, b: Vec): Vec {
    Vec(if b.x > a.x then b.x else a.x, if b.y > a.y then b.y else a.y, if b.z > a.z then b.z else a.z)
  }

  predicate Below(a: Vec, b: Vec) {
    a.x <= b.x && a.y <= b.y && a.z <= b.z
  }

  /** The lower corner of the bounding box. */
  function Low(v: seq<Vec>): Vec
    requires |v| > 0
  {
    if |v| == 1 then v[0] else Least(Low(v[..|v| - 1]), v[|v| - 1])
  }

  /** The upper corner of the bounding box. */
  function High(v: seq<Vec>): Vec
    requires |v| > 0
  {
    if |v| == 1 then v[0] else Greatest(High(v[..|v| - 1]), v[|v| - 1])
  }

  lemma {:induction false} BoxContains(v: seq<Vec>)
    requires |v| > 0
    ensures forall i :: 0 <= i < |v| ==> Below(Low(v), v[i]) && Below(v[i], High(v))
  {
    if |v| == 1 {
    } else {
      var init := v[..|v| - 1];
      BoxContains(init);
      assert forall i :: 0 <= i < |init| ==> init[i] == v[i];
    }
  }

  function Midpoint(a: Vec, b: Vec): Vec {
    Vec((a.x + b.x) / 2.0, (a.y + b.y) / 2.0, (a.z + b.z) / 2.0)
  }

  /** On every axis the two vectors differ by less than the square root of q. */
  predicate Within(a: Vec, b: Vec, q: real) {
    && (a.x - b.x) * (a.x - b.x) < q
    && (a.y - b.y) * (a.y - b.y) < q
    && (a.z - b.z) * (a.z - b.z) < q
  }

  /** The centres agree: their box is narrower than the tolerated fraction of the radius on every axis. */
  predicate Agree(v: seq<Vec>, r2: real)
    requires |v| > 0
  {
    Within(High(v), Low(v), HO_TH2 * r2)
  }

  /** The samples a fit is based on. */
  function Window(h: seq<Vec>): seq<Vec> {
    OccupiedInRange(h);
    h[..Occupied(h)]
  }

  /** One call: the new state, the new offset, whether success is reported, and the centre if a fit was accepted. */
  datatype Outcome = Outcome(state: State, offset: Vec, ok: bool, accepted: Option<Vec>)

  function Step(s: State, v: Vec, ho: Vec, stale: Stale): Outcome {
    var h := Pushed(s.hbuf, v);
    var w := Window(h);
    if |w| < 4 then Outcome(s.(hbuf := h), ho, false, None) else
    var p := FourPoints(w, stale);
    match FitSphere(p)
    case NoFit => Outcome(s.(hbuf := h), ho, false, None)
    case Sphere(c, r2) =>
      if !Spread(p, r2) then Outcome(s.(hbuf := h, r2 := r2), ho, false, None) else
      var centers := Pushed(s.hobuf, c);
      var s' := State(h[..HBUF_SIZE / 2] + Sentinels(HBUF_SIZE / 2), centers, r2);
      if IsEmpty(centers[HOBUF_SIZE - 1]) || !Agree(centers, r2) then Outcome(s', ho, false, Some(c)) else
      Outcome(s', Midpoint(High(centers), Low(centers)), true, Some(c))
  }

  lemma OccupiedInRange(h: seq<Vec>)
    ensures Occupied(h) == 0 || 4 <= Occupied(h) <= |h|
  {
  }

  lemma OccupiedIsLastFilledSlot(h: seq<Vec>, n: nat)
    requires n <= |h|
    requires forall i :: n <= i < |h| ==> IsEmpty(h[i])
    ensures Occupied(h) == Occupied(h[..n])
  {
    if n < |h| && |h| > 3 {
      assert h[..|h| - 1][..n] == h[..n];
      OccupiedIsLastFilledSlot(h[..|h| - 1], n);
    } else {
      assert h[..|h|] == h;
    }
  }

  class OffsetCalibrator {
    const hbuf: array<Vec>
    const hobuf: array<Vec>
    var r2: real

    ghost predicate Valid() {
      hbuf.Length == HBUF_SIZE && hobuf.Length == HOBUF_SIZE && hbuf != hobuf
    }

    ghost function Contents(): State
      requires Valid()
      reads this, hbuf, hobuf
    {
      State(hbuf[..], hobuf[..], r2)
    }

    constructor ()
      ensures Valid() && Contents() == INITIAL
      ensures fresh(hbuf) && fresh(hobuf)
    {
      hbuf := new Vec[HBUF_SIZE](_ => SENTINEL);
      hobuf := new Vec[HOBUF_SIZE](_ => SENTINEL);
      r2 := 0.0;
    }

    /** `AKFS_InitAOC`. */
    method Init()
      requires Valid()
      modifies this, hbuf, hobuf
      ensures Contents() == INITIAL
    {
      var ok := InitBuffer(HBUF_SIZE, hbuf);
      ok := InitBuffer(HOBUF_SIZE, hobuf);
      r2 := 0.0;
    }

    /** The backward scan for the last occupied slot. */
    method CountSamples() returns (num: nat)
      requires Valid()
      ensures num == Occupied(hbuf[..])
    {
      var i := HBUF_SIZE;
      assert hbuf[..i] == hbuf[..];
      while 3 < i
        invariant 3 <= i <= HBUF_SIZE
        invariant Occupied(hbuf[..]) == Occupied(hbuf[..i])
      {
        if !IsEmpty(hbuf[i - 1]) {
          return i;
        }
        assert hbuf[..i][..i - 1] == hbuf[..i - 1];
        i := i - 1;
      }
      return 0;
    }

    /** `AKFS_AOC`; ho is passed in and its new value returned. */
    method Calibrate(hdata: Vec, ho: Vec, stale: Stale) returns (ok: bool, ho': Vec)
      requires Valid()
      modifies this, hbuf, hobuf
      ensures var o := Step(old(Contents()), hdata, ho, stale);
              Contents() == o.state && ok == o.ok && ho' == o.offset
    {
      hide Occupied, FourPoints, FitSphere, Spread, Agree, High, Low, Midpoint, Dist2;
      ho' := ho;
      ok := false;
      Push(hbuf, hdata);
      ghost var h := hbuf[..];
      var num := CountSamples();
      OccupiedInRange(h);
      if num < 4 {
        return;
      }
      var fourpoints := new Vec[4](i requires 0 <= i < 4 => stale[i]);
      assert fourpoints[..] == stale;
      Get4points(hbuf, num, fourpoints);
      var fit := From4Points2Sphere(fourpoints);
      if fit.NoFit? {
        return;
      }
      r2 := fit.r2;
      var apart := CheckDistances(fourpoints, r2);
      if !apart {
        return;
      }
      ok, ho' := Accept(fit.center, ho);
    }

    /** The tail of `AKFS_AOC`, after a fit passed the distance test. */
    method Accept(center: Vec, ho: Vec) returns (ok: bool, ho': Vec)
      requires Valid()
      modifies hbuf, hobuf
      ensures hbuf[..] == old(hbuf[..HBUF_SIZE / 2]) + Sentinels(HBUF_SIZE / 2)
      ensures hobuf[..] == Pushed(old(hobuf[..]), center)
      ensures ok == (!IsEmpty(hobuf[HOBUF_SIZE - 1]) && Agree(hobuf[..], r2))
      ensures ho' == if ok then Midpoint(High(hobuf[..]), Low(hobuf[..])) else ho
    {
      hide High, Low, Midpoint;
      ho' := ho;
      ok := false;
      Push(hobuf, center);
      for i := HBUF_SIZE / 2 to HBUF_SIZE
        invariant forall k :: 0 <= k < HBUF_SIZE / 2 ==> hbuf[k] == old(hbuf[k])
        invariant forall k :: HBUF_SIZE / 2 <= k < i ==> hbuf[k] == SENTINEL
        invariant hobuf[..] == Pushed(old(hobuf[..]), center)
      {
        hbuf[i] := SENTINEL;
      }
      if IsEmpty(hobuf[HOBUF_SIZE - 1]) {
        return;
      }
      var mean, v := MeanVar(hobuf, HOBUF_SIZE);
      assert hobuf[..HOBUF_SIZE] == hobuf[..];
      if v.x * v.x >= HO_TH2 * r2 || v.y * v.y >= HO_TH2 * r2 || v.z * v.z >= HO_TH2 * r2 {
        return;
      }
      ho' := mean;
      ok := true;
    }
  }

  /** The double loop over the pairs of points. */
  method CheckDistances(p: array<Vec>, r2: real) returns (apart: bool)
    ensures apart == Spread(p[..], r2)
  {
    hide Dist2;
    for i := 0 to p.Length
      invariant forall a, b :: 0 <= a < i && a < b < p.Length ==> Dist2(p[a], p[b]) >= r2 && Dist2(p[a], p[b]) >= HR_TH2
    {
      for j := i + 1 to p.Length
        invariant forall b :: i < b < j ==> Dist2(p[i], p[b]) >= r2 && Dist2(p[i], p[b]) >= HR_TH2
      {
        var tempf := Dist2(p[i], p[j]);
        if tempf < r2 || tempf < HR_TH2 {
          assert p[..][i] == p[i] && p[..][j] == p[j];
          return false;
        }
      }
    }
    return true;
  }

  /** `MeanVar`: the midpoint and the extent of the bounding box. */
  method MeanVar(v: array<Vec>, n: nat) returns (mean: Vec, extent: Vec)
    requires 0 < n <= v.Length
    ensures mean == Midpoint(High(v[..n]), Low(v[..n])) && extent == Minus(High(v[..n]), Low(v[..n]))
  {
    var min, max := v[0], v[0];
    for i := 1 to n
      invariant min == Low(v[..i]) && max == High(v[..i])
    {
      assert v[..i + 1][..i] == v[..i];
      min := Least(min, v[i]);
      max := Greatest(max, v[i]);
    }
    mean := Midpoint(max, min);
    extent := Minus(max, min);
  }
}
