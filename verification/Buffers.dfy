/** Fixed-size vector buffers, newest entry first, with a sentinel for empty slots (akfs_device.c). */
module Buffers {
  import opened Vectors

  /** `AKFS_FMAX`, the largest single-precision number; it marks an empty slot. */
  const FMAX: real := 340282346638528859811704183484516925440.0

  const SENTINEL: Vec := Vec(FMAX, FMAX, FMAX)

  /** `CheckInitFvec`: a slot counts as empty as soon as one component reaches the sentinel. */
  predicate IsEmpty(v: Vec) {
    FMAX <= v.x || FMAX <= v.y || FMAX <= v.z
  }

  function Sentinels(n: nat): seq<Vec> {
    seq(n, _ => SENTINEL)
  }

  /** A buffer after a new entry pushed the oldest one out. */
  function Pushed(buf: seq<Vec>, v: Vec): (r: seq<Vec>)
    requires |buf| > 0
    ensures |r| == |buf|
  {
    [v] + buf[..|buf| - 1]
  }

  /** `AKFS_InitBuffer`, and the loops of `AKFS_InitAOC`. */
  method InitBuffer(ndata: int, vdata: array<Vec>) returns (ok: bool)
    requires ndata <= vdata.Length
    modifies vdata
    ensures ok <==> 0 < ndata
    ensures vdata[..] == if ok then Sentinels(ndata) + old(vdata[ndata..]) else old(vdata[..])
  {
    if ndata <= 0 {
      return false;
    }
    for i := 0 to ndata
      invariant forall k :: 0 <= k < i ==> vdata[k] == SENTINEL
      invariant forall k :: i <= k < vdata.Length ==> vdata[k] == old(vdata[k])
    {
      vdata[i] := SENTINEL;
    }
    return true;
  }

  /** `AKFS_BufShift`: moves entries towards the end; the freed slots at the front keep their old values. */
  method BufShift(len: int, shift: int, v: array<Vec>) returns (ok: bool)
    requires len <= v.Length
    modifies v
    ensures ok <==> 1 <= shift <= len
    ensures v[..] == if ok then old(v[..shift]) + old(v[..len - shift]) + old(v[len..]) else old(v[..])
  {
    if shift < 1 || len < shift {
      return false;
    }
    var i := len - 1;
    while i >= shift
      invariant shift - 1 <= i < len
      invariant forall k :: 0 <= k <= i ==> v[k] == old(v[k])
      invariant forall k :: i < k < len ==> v[k] == old(v[k - shift])
      invariant forall k :: len <= k < v.Length ==> v[k] == old(v[k])
    {
      v[i] := v[i - shift];
      i := i - 1;
    }
    return true;
  }

  /** The shift loop of `AKFS_AOC` followed by storing the new entry. */
  method Push(buf: array<Vec>, v: Vec)
    requires buf.Length > 0
    modifies buf
    ensures buf[..] == Pushed(old(buf[..]), v)
  {
    var size := buf.Length;
    for i := 1 to size
      invariant forall k :: 0 <= k <= size - i ==> buf[k] == old(buf[k])
      invariant forall k :: size - i < k < size ==> buf[k] == old(buf[k - 1])
    {
      buf[size - i] := buf[size - i - 1];
    }
    buf[0] := v;
  }
}
