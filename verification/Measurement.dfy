/** The measurement pipeline (akfs_measure.c, akfs_vnorm.c): calibrate, subtract the offset, average, judge. */
module Measurement {
  import opened Vectors
  import opened Buffers
  import opened SphereFit
  import opened Calibration

  const HDATA_SIZE := 32
  const ADATA_SIZE := 32
  const NAVE := 8
  const SENSE: real := 1.0
  /** Square of the largest plausible length of a magnetic vector. */
  const GEOMAG_MAX2: real := 4900.0

  /** `AKFS_VbAve` stops at an entry one of whose components equals the sentinel. */
  predicate IsMissing(v: Vec) {
    v.x == FMAX || v.y == FMAX || v.z == FMAX
  }

  /** The entries before the first missing one. */
  function Live(v: seq<Vec>): (r: seq<Vec>)
    ensures r <= v
  {
    if v == [] || IsMissing(v[0]) then [] else [v[0]] + Live(v[1..])
  }

  function Sum(v: seq<Vec>): Vec {
    if v == [] then ZERO else Plus(Sum(v[..|v| - 1]), v[|v| - 1])
  }

  function Mean(v: seq<Vec>): Vec {
    if v == [] then ZERO else
    var s := Sum(v);
    Vec(s.x / |v| as real, s.y / |v| as real, s.z / |v| as real)
  }

  /** One entry after subtracting the offset and adjusting the sensitivity. */
  function Normalized(v: Vec, o: Vec, s: Vec, tgt: real): Vec
    requires s.x != 0.0 && s.y != 0.0 && s.z != 0.0
  {
    Vec((v.x - o.x) / s.x * tgt, (v.y - o.y) / s.y * tgt, (v.z - o.z) / s.z * tgt)
  }

  predicate Sensitive(s: Vec, tgt: real) {
    s.x > EPSILON && s.y > EPSILON && s.z > EPSILON && tgt > 0.0
  }

  /** `AKFS_VbNorm`. */
  method VbNorm(ndata: int, vdata: array<Vec>, nbuf: int, o: Vec, s: Vec, tgt: real, nvec: int, vvec: array<Vec>)
    returns (ok: bool)
    requires ndata <= vdata.Length && nvec <= vvec.Length && vdata != vvec
    modifies vvec
    ensures ok <==> 0 < nbuf <= ndata && nbuf <= nvec && Sensitive(s, tgt)
    ensures !ok ==> vvec[..] == old(vvec[..])
    ensures ok ==> vvec[..] == seq(nbuf, i requires 0 <= i < nbuf => Normalized(old(vdata[i]), o, s, tgt))
                             + old(vvec[..nvec - nbuf]) + old(vvec[nvec..])
  {
    if ndata <= 0 || nvec <= 0 || nbuf <= 0 {
      return false;
    }
    if nbuf < 1 || ndata < nbuf || nvec < nbuf {
      return false;
    }
    if s.x <= EPSILON || s.y <= EPSILON || s.z <= EPSILON || tgt <= 0.0 {
      return false;
    }
    var shifted := BufShift(nvec, nbuf, vvec);
    if !shifted {
      return false;
    }
    ghost var kept := vvec[nbuf..];
    assert kept == old(vvec[..nvec - nbuf]) + old(vvec[nvec..]);
    StoreNormalized(vdata, nbuf, o, s, tgt, vvec);
    hide Normalized;
    assert vvec[nbuf..] == kept;
    return true;
  }

  /** The loop over the new data. */
  method StoreNormalized(vdata: array<Vec>, nbuf: int, o: Vec, s: Vec, tgt: real, vvec: array<Vec>)
    requires 0 < nbuf <= vdata.Length && nbuf <= vvec.Length && vdata != vvec && Sensitive(s, tgt)
    modifies vvec
    ensures forall k :: 0 <= k < nbuf ==> vvec[k] == Normalized(old(vdata[k]), o, s, tgt)
    ensures forall k :: nbuf <= k < vvec.Length ==> vvec[k] == old(vvec[k])
  {
    hide Normalized;
    for i := 0 to nbuf
      invariant forall k :: 0 <= k < i ==> vvec[k] == Normalized(vdata[k], o, s, tgt)
      invariant forall k :: i <= k < vvec.Length ==> vvec[k] == old(vvec[k])
    {
      vvec[i] := Normalized(vdata[i], o, s, tgt);
    }
  }

  lemma {:induction false} LiveOfConcat(a: seq<Vec>, b: seq<Vec>)
    requires forall k :: 0 <= k < |a| ==> !IsMissing(a[k])
    ensures Live(a + b) == a + Live(b)
  {
    hide IsMissing;
    if a == [] {
      assert a + b == b;
    } else {
      LiveOfConcat(a[1..], b);
      assert (a + b)[1..] == a[1..] + b;
    }
  }

  lemma LiveStep(v: seq<Vec>, i: nat)
    requires i < |v| && forall k :: 0 <= k < i ==> !IsMissing(v[k])
    ensures Live(v[..i + 1]) == if IsMissing(v[i]) then v[..i] else v[..i + 1]
    ensures IsMissing(v[i]) ==> Live(v) == v[..i]
  {
    hide IsMissing;
    LiveOfConcat(v[..i], [v[i]]);
    LiveOfConcat(v[..i], v[i..]);
    assert v[..i] + [v[i]] == v[..i + 1] && v[..i] + v[i..] == v;
    assert [v[i]][1..] == [];
  }

  lemma {:induction false} AllLive(v: seq<Vec>)
    requires forall k :: 0 <= k < |v| ==> !IsMissing(v[k])
    ensures Live(v) == v
  {
    if v == [] {
    } else {
      AllLive(v[1..]);
    }
  }

  /** `AKFS_VbAve`. */
  method VbAve(nvec: int, vvec: array<Vec>, nave: int, before: Vec) returns (ok: bool, vave: Vec)
    requires nvec <= vvec.Length
    ensures ok <==> 0 < nave <= nvec
    ensures vave == if ok then Mean(Live(vvec[..nave])) else before
  {
    if nave <= 0 || nvec <= 0 || nvec < nave {
      return false, before;
    }
    vave := ZERO;
    var i := 0;
    while i < nave && !IsMissing(vvec[i])
      invariant 0 <= i <= nave
      invariant forall k :: 0 <= k < i ==> !IsMissing(vvec[k])
      invariant vave == Sum(vvec[..i])
    {
      assert vvec[..i + 1][..i] == vvec[..i];
      vave := Plus(vave, vvec[i]);
      i := i + 1;
    }
    assert Live(vvec[..nave]) == vvec[..i] by {
      if i < nave {
        LiveStep(vvec[..nave], i);
        assert vvec[..nave][..i] == vvec[..i];
      } else {
        AllLive(vvec[..nave]);
      }
    }
    if i == 0 {
      vave := ZERO;
    } else {
      vave := Vec(vave.x / i as real, vave.y / i as real, vave.z / i as real);
    }
    return true, vave;
  }

  lemma UnitSensitivity(v: Vec, o: Vec)
    ensures Normalized(v, o, Vec(SENSE, SENSE, SENSE), SENSE) == Minus(v, o)
  {
  }

  datatype RawParams = Params(aoc: State, ho: Vec, hvbuf: seq<Vec>, avbuf: seq<Vec>, hvec: Vec, avec: Vec, hstatus: int)
  type Params = p: RawParams | |p.hvbuf| == HDATA_SIZE && |p.avbuf| == ADATA_SIZE
    witness Params(INITIAL, ZERO, Sentinels(HDATA_SIZE), Sentinels(ADATA_SIZE), ZERO, ZERO, 0)

  /** `AKFS_InitMeasure`: the outputs and the status keep their values. */
  function Restarted(p: Params, offset: Vec): Params {
    Params(INITIAL, offset, Sentinels(HDATA_SIZE), Sentinels(ADATA_SIZE), p.hvec, p.avec, p.hstatus)
  }

  /** The effect of a magnetometer sample. The accelerometer buffer is shifted too, so its newest entry is doubled. */
  function MagneticStep(p: Params, mag: Vec, stale: Stale): Params {
    var o := Step(p.aoc, mag, p.ho, stale);
    var hvbuf := Pushed(p.hvbuf, Minus(mag, o.offset));
    var hvec := Mean(Live(hvbuf[..NAVE]));
    var hstatus := if Norm2(hvec) > GEOMAG_MAX2 then 0 else if o.ok then 3 else p.hstatus;
    Params(o.state, o.offset, hvbuf, p.avbuf[..1] + p.avbuf[..ADATA_SIZE - 1], hvec, p.avec, hstatus)
  }

  function AccelerationStep(p: Params, acc: Vec): Params {
    var avbuf := Pushed(p.avbuf, acc);
    p.(avbuf := avbuf, avec := Mean(Live(avbuf[..NAVE])))
  }

  /** `AKL_SCL_PRMS`. */
  class Compass {
    const aoc: OffsetCalibrator
    const hdata: array<Vec>
    const hvbuf: array<Vec>
    const avbuf: array<Vec>
    var ho: Vec
    var hs: Vec
    var hvec: Vec
    var avec: Vec
    var hstatus: int

    ghost predicate Valid()
      reads this
    {
      && aoc.Valid()
      && hdata.Length == HDATA_SIZE && hvbuf.Length == HDATA_SIZE && avbuf.Length == ADATA_SIZE
      && hdata != hvbuf && hdata != avbuf && hvbuf != avbuf
      && aoc.hbuf != hdata && aoc.hbuf != hvbuf && aoc.hbuf != avbuf
      && aoc.hobuf != hdata && aoc.hobuf != hvbuf && aoc.hobuf != avbuf
      && hs == Vec(SENSE, SENSE, SENSE)
    }

    ghost function Repr(): set<object> {
      {this, aoc, aoc.hbuf, aoc.hobuf, hdata, hvbuf, avbuf}
    }

    ghost function Contents(): Params
      reads this, Repr()
      requires Valid()
    {
      Params(aoc.Contents(), ho, hvbuf[..], avbuf[..], hvec, avec, hstatus)
    }

    /** Zero-filled memory prepared by `AKFS_InitPRMS`. */
    constructor ()
      ensures Valid() && fresh(Repr())
      ensures hvec == ZERO && avec == ZERO && hstatus == 0
    {
      aoc := new OffsetCalibrator();
      hdata := new Vec[HDATA_SIZE](_ => ZERO);
      hvbuf := new Vec[HDATA_SIZE](_ => ZERO);
      avbuf := new Vec[ADATA_SIZE](_ => ZERO);
      ho, hvec, avec, hstatus := ZERO, ZERO, ZERO, 0;
      hs := Vec(SENSE, SENSE, SENSE);
    }

    /** `AKFS_InitMeasure`; the stored offset comes from non-volatile data. */
    method InitMeasure(stored: Vec)
      requires Valid()
      modifies Repr()
      ensures Valid() && Contents() == Restarted(old(Contents()), stored)
    {
      ho := stored;
      var ok := InitBuffer(HDATA_SIZE, hdata);
      ok := InitBuffer(HDATA_SIZE, hvbuf);
      ok := InitBuffer(ADATA_SIZE, avbuf);
      aoc.Init();
    }

    /** `AKFS_Set_MAGNETIC_FIELD`. */
    method SetMagneticField(mag: Vec, stale: Stale) returns (ok: bool)
      requires Valid()
      modifies Repr()
      ensures Valid() && ok && Contents() == MagneticStep(old(Contents()), mag, stale)
    {
      hide Step, Mean, Live, Norm2, Minus;
      ok := MakeSpareArea();
      if !ok {
        return;
      }
      hdata[0] := mag;
      var aocret;
      aocret, ho := aoc.Calibrate(hdata[0], ho, stale);
      ok := StoreCorrected();
      if !ok {
        return;
      }
      ok := UpdateVector(aocret);
    }

    /** The call marked as making room for new data, which shifts the accelerometer buffer. */
    method MakeSpareArea() returns (ok: bool)
      requires Valid()
      modifies avbuf
      ensures ok && avbuf[..] == old(avbuf[..1]) + old(avbuf[..ADATA_SIZE - 1])
    {
      ok := BufShift(ADATA_SIZE, 1, avbuf);
    }

    /** Subtracting the offset from the newest sample, into the buffer that is averaged. */
    method StoreCorrected() returns (ok: bool)
      requires Valid()
      modifies hvbuf
      ensures ok && hvbuf[..] == Pushed(old(hvbuf[..]), Minus(hdata[0], ho))
    {
      hide Normalized, Minus;
      ok := VbNorm(HDATA_SIZE, hdata, 1, ho, hs, SENSE, HDATA_SIZE, hvbuf);
      UnitSensitivity(hdata[0], ho);
    }

    /** The tail of `AKFS_Set_MAGNETIC_FIELD`: averaging and the judgement on the size of the average. */
    method UpdateVector(aocret: bool) returns (ok: bool)
      requires Valid()
      modifies this`hvec, this`hstatus
      ensures ok
      ensures hvec == Mean(Live(hvbuf[..][..NAVE]))
      ensures hstatus == if Norm2(hvec) > GEOMAG_MAX2 then 0 else if aocret then 3 else old(hstatus)
    {
      hide Mean, Live, Norm2;
      ok, hvec := VbAve(HDATA_SIZE, hvbuf, NAVE, hvec);
      if !ok {
        return;
      }
      assert hvbuf[..][..NAVE] == hvbuf[..NAVE];
      var radius2 := Norm2(hvec);
      if radius2 > GEOMAG_MAX2 {
        hstatus := 0;
      } else if aocret {
        hstatus := 3;
      }
      return true;
    }

    /** `AKFS_Set_ACCELEROMETER`. */
    method SetAccelerometer(acc: Vec) returns (ok: bool)
      requires Valid()
      modifies Repr()
      ensures Valid() && ok && Contents() == AccelerationStep(old(Contents()), acc)
    {
      hide Mean, Live;
      ok := StoreAcceleration(acc);
      if !ok {
        return;
      }
      assert avbuf[..][..NAVE] == avbuf[..NAVE];
      ok, avec := VbAve(ADATA_SIZE, avbuf, NAVE, avec);
    }

    method StoreAcceleration(acc: Vec) returns (ok: bool)
      requires Valid()
      modifies avbuf
      ensures ok && avbuf[..] == Pushed(old(avbuf[..]), acc)
    {
      ok := BufShift(ADATA_SIZE, 1, avbuf);
      if !ok {
        return;
      }
      avbuf[0] := acc;
    }

    /** `AKL_ForceReCalibration`. */
    method ForceReCalibration()
      requires Valid()
      modifies this`hstatus
      ensures Valid() && Contents() == old(Contents()).(hstatus := 0)
    {
      hstatus := 0;
    }
  }

  /** Normalizing scales the difference to the offset by target over sensitivity, on every axis. */
  lemma NormalizedScales(v: Vec, o: Vec, s: Vec, tgt: real)
    requires s.x != 0.0 && s.y != 0.0 && s.z != 0.0
    ensures var n := Normalized(v, o, s, tgt);
            n.x * s.x == (v.x - o.x) * tgt && n.y * s.y == (v.y - o.y) * tgt && n.z * s.z == (v.z - o.z) * tgt
  {
    Scaled(v.x - o.x, s.x, tgt);
    Scaled(v.y - o.y, s.y, tgt);
    Scaled(v.z - o.z, s.z, tgt);
  }

  lemma Scaled(d: real, s: real, tgt: real)
    requires s != 0.0
    ensures (d / s * tgt) * s == d * tgt
  {
    var q := d / s;
    assert q * s == d;
    assert (q * tgt) * s == (q * s) * tgt;
  }

  /** The average is over the entries before the first that has a component equal to the sentinel. */
  lemma LiveStopsAtSentinel(v: seq<Vec>, k: nat)
    requires k <= |v| && forall i :: 0 <= i < k ==> v[i].x != FMAX && v[i].y != FMAX && v[i].z != FMAX
    requires k < |v| ==> v[k].x == FMAX || v[k].y == FMAX || v[k].z == FMAX
    ensures Live(v) == v[..k]
  {
    if k < |v| {
      LiveStep(v, k);
    } else {
      AllLive(v);
    }
  }
}
