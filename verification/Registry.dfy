/** The sensor registry (sensors_list.c): two parallel arrays, iterated while entries remove themselves. */
module Registry {
  import opened Options

  const MAX_SENSORS := 16
  const SENSOR_OK := 0

  /** A sensor descriptor: its handle, and all else that is copied with it. */
  datatype Descriptor = Descriptor(handle: int, details: seq<int>)

  const CLEARED: Descriptor := Descriptor(0, [])

  /** A registered sensor: a copy of its descriptor, and its API. */
  datatype Entry = Entry(sensor: Descriptor, api: int)

  /** What the callback returns on its n-th call, whatever state it keeps. */
  type Callback = (nat, int) -> int

  predicate Distinct(s: seq<Entry>) {
    forall i, j :: 0 <= i < j < |s| ==> s[i].api != s[j].api
  }

  /** Entries with the same API stand next to each other and have the same descriptor. */
  predicate Clustered(s: seq<Entry>) {
    forall i, j, k :: 0 <= i <= k <= j < |s| && s[i].api == s[j].api ==> s[k] == s[i]
  }

  function Apis(s: seq<Entry>): seq<int> {
    seq(|s|, i requires 0 <= i < |s| => s[i].api)
  }

  /** Two parallel arrays read as one list. */
  function Zip(sensors: seq<Descriptor>, apis: seq<int>): (s: seq<Entry>)
    requires |sensors| == |apis|
    ensures |s| == |apis|
    ensures forall i :: 0 <= i < |apis| ==> s[i] == Entry(sensors[i], apis[i])
  {
    seq(|apis|, i requires 0 <= i < |apis| => Entry(sensors[i], apis[i]))
  }

  /** The entries whose call, in list order starting with call number n, returned SENSOR_OK. */
  function Accepted(s: seq<Entry>, f: Callback, n: nat): seq<Entry> {
    if s == [] then [] else
    (if f(n, s[0].api) == SENSOR_OK then [s[0]] else []) + Accepted(s[1..], f, n + 1)
  }

  /** The index of the first entry with an API, or the length. */
  function FirstIndex(s: seq<Entry>, api: int): (i: nat)
    ensures i <= |s|
    ensures i < |s| ==> s[i].api == api
    ensures forall k :: 0 <= k < i ==> s[k].api != api
  {
    if s == [] || s[0].api == api then 0 else 1 + FirstIndex(s[1..], api)
  }

  /** The list without the first entry that has this API. */
  function Without(s: seq<Entry>, api: int): (r: seq<Entry>)
    ensures (exists i :: 0 <= i < |s| && s[i].api == api) ==> |r| == |s| - 1
  {
    var i := FirstIndex(s, api);
    if i == |s| then s else s[..i] + s[i + 1..]
  }

  class SensorList {
    const sensors: array<Descriptor>
    const apis: array<int>
    var number: nat

    ghost predicate Valid()
      reads this
    {
      sensors.Length == MAX_SENSORS && apis.Length == MAX_SENSORS && number <= MAX_SENSORS
    }

    ghost function Contents(): (s: seq<Entry>)
      reads this, sensors, apis
      requires Valid()
      ensures |s| == number
    {
      Zip(sensors[..number], apis[..number])
    }

    constructor ()
      ensures Valid() && fresh(sensors) && fresh(apis) && Contents() == []
    {
      sensors := new Descriptor[MAX_SENSORS](_ => CLEARED);
      apis := new int[MAX_SENSORS];
      number := 0;
    }

    /** `sensors_list_register`; a null pointer is None. */
    method Register(sensor: Option<Descriptor>, api: Option<int>) returns (rv: int)
      requires Valid()
      modifies this, sensors, apis
      ensures Valid()
      ensures rv == if sensor.Some? && api.Some? && |old(Contents())| < 16 then 0 else -1
      ensures Contents() == if rv == 0 then old(Contents()) + [Entry(sensor.value, api.value)] else old(Contents())
    {
      if sensor == None || api == None {
        return -1;
      }
      if number > MAX_SENSORS - 1 {
        return -1;
      }
      apis[number] := api.value;
      sensors[number] := sensor.value;
      number := number + 1;
      return 0;
    }

    method IndexOf(api: int) returns (i: nat)
      requires Valid()
      ensures i == FirstIndex(Contents(), api)
    {
      i := 0;
      while i < number && apis[i] != api
        invariant i <= number
        invariant forall k :: 0 <= k < i ==> apis[k] != api
      {
        i := i + 1;
      }
      FirstIndexIs(Contents(), api, i);
    }

    /** The shifting loop of `sensors_list_deregister`. */
    method ShiftOut(at: nat)
      requires Valid() && at < number
      modifies this`number, sensors, apis
      ensures Valid() && number == old(number) - 1
      ensures var h := old(sensors[..number]); sensors[..number] == h[..at] + h[at + 1..]
      ensures var a := old(apis[..number]); apis[..number] == a[..at] + a[at + 1..]
    {
      hide ShiftedTo;
      ghost var n, h, a := number, sensors[..number], apis[..number];
      ShiftStarts(h, at);
      ShiftStarts(a, at);
      var i := at;
      while i < number - 1
        invariant at <= i <= number - 1 && number == n
        invariant sensors[..n] == ShiftedTo(h, at, i) && apis[..n] == ShiftedTo(a, at, i)
      {
        ShiftGoesOn(h, at, i, sensors[..n]);
        ShiftGoesOn(a, at, i, apis[..n]);
        apis[i] := apis[i + 1];
        sensors[i] := sensors[i + 1];
        i := i + 1;
      }
      number := number - 1;
      ShiftEnds(h, at, sensors[..n]);
      ShiftEnds(a, at, apis[..n]);
      assert sensors[..number] == sensors[..n][..n - 1] && apis[..number] == apis[..n][..n - 1];
    }

    /** `sensors_list_deregister`: both arrays are shifted over the first entry with this API. */
    method Deregister(api: int)
      requires Valid()
      modifies this, sensors, apis
      ensures Valid() && Contents() == Without(old(Contents()), api)
    {
      hide FirstIndex, Zip, Without;
      AbsentApi(Contents(), api);
      var i := IndexOf(api);
      if i == number {
        return;
      }
      ghost var h, a := sensors[..number], apis[..number];
      ShiftOut(i);
      ZipWithout(h, a, i, api);
    }

    /** `sensors_list_get_api_from_handle`. */
    method GetApiFromHandle(handle: int) returns (api: Option<int>)
      requires Valid()
      ensures api == None <==> forall i :: 0 <= i < number ==> Contents()[i].sensor.handle != handle
      ensures api.Some? ==> exists i :: 0 <= i < number && Contents()[i].sensor.handle == handle
                                        && Contents()[i].api == api.value
                                        && forall k :: 0 <= k < i ==> Contents()[k].sensor.handle != handle
    {
      var i := 0;
      while i < number
        invariant i <= number
        invariant forall k :: 0 <= k < i ==> Contents()[k].sensor.handle != handle
      {
        if sensors[i].handle == handle {
          assert Contents()[i] == Entry(sensors[i], apis[i]);
          return Some(apis[i]);
        }
        i := i + 1;
      }
      return None;
    }

    /** `sensors_list_foreach_api`: the index steps back after a removal. For clustered entries, in particular for
      distinct APIs, every one is called once, in order, and exactly the accepted entries stay, each still beside its
      own descriptor. */
    method ForEachApi(f: Callback) returns (calls: seq<int>)
      requires Valid()
      modifies this, sensors, apis
      ensures Valid()
      ensures (calls, Contents()) == Iterated(old(Contents()), f, 0, [])
      ensures Clustered(old(Contents())) || Distinct(old(Contents())) ==>
                calls == Apis(old(Contents())) && Contents() == Accepted(old(Contents()), f, 0)
    {
      hide Zip, Without, Apis, Accepted, Distinct, Clustered;
      ghost var s := Contents();
      calls := [];
      var i := 0;
      while i < number
        invariant Valid() && 0 <= i <= number
        invariant Iterated(s, f, 0, []) == Iterated(Contents(), f, i, calls)
        decreases number - i
      {
        assert Contents()[i].api == apis[i];
        var rv := f(|calls|, apis[i]);
        calls := calls + [apis[i]];
        if rv != SENSOR_OK {
          Deregister(apis[i]);
          i := i - 1;
        }
        i := i + 1;
      }
      DistinctIsClustered(s);
      ClusteredIteration(s, f);
    }
  }

  /** A list while the entries from position at on are shifted, up to position i. */
  function ShiftedTo<T>(s: seq<T>, at: nat, i: nat): (r: seq<T>)
    requires at <= i < |s|
    ensures |r| == |s|
  {
    seq(|s|, k requires 0 <= k < |s| => if at <= k < i then s[k + 1] else s[k])
  }

  lemma ShiftStarts<T>(s: seq<T>, at: nat)
    requires at < |s|
    ensures ShiftedTo(s, at, at) == s
  {
  }

  lemma ShiftGoesOn<T>(s: seq<T>, at: nat, i: nat, r: seq<T>)
    requires at <= i < |s| - 1 && r == ShiftedTo(s, at, i)
    ensures r[i := r[i + 1]] == ShiftedTo(s, at, i + 1)
  {
  }

  lemma ShiftEnds<T>(s: seq<T>, at: nat, r: seq<T>)
    requires at < |s| && r == ShiftedTo(s, at, |s| - 1)
    ensures r[..|s| - 1] == s[..at] + s[at + 1..]
  {
  }

  lemma AbsentApi(s: seq<Entry>, api: int)
    ensures FirstIndex(s, api) == |s| ==> Without(s, api) == s
  {
  }

  lemma ZipWithout(h: seq<Descriptor>, a: seq<int>, i: nat, api: int)
    requires |h| == |a| && i < |a| && i == FirstIndex(Zip(h, a), api)
    ensures Zip(h[..i] + h[i + 1..], a[..i] + a[i + 1..]) == Without(Zip(h, a), api)
  {
    hide FirstIndex;
  }

  lemma {:induction false} FirstIndexIs(s: seq<Entry>, api: int, i: nat)
    requires i <= |s| && (forall k :: 0 <= k < i ==> s[k].api != api) && (i < |s| ==> s[i].api == api)
    ensures FirstIndex(s, api) == i
  {
  }

  /** The iteration from position i on, with the calls made so far: the APIs called and the list left. */
  function Iterated(s: seq<Entry>, f: Callback, i: nat, calls: seq<int>): (seq<int>, seq<Entry>)
    requires i <= |s|
    decreases |s| - i
  {
    if i == |s| then (calls, s) else
    var calls' := calls + [s[i].api];
    if f(|calls|, s[i].api) == SENSOR_OK then Iterated(s, f, i + 1, calls')
    else Iterated(Without(s, s[i].api), f, i, calls')
  }

  lemma DistinctIsClustered(s: seq<Entry>)
    ensures Distinct(s) ==> Clustered(s)
  {
  }

  /** Removing the first entry with an API from a clustered list is removing any of them. */
  lemma WithoutOneOfCluster(s: seq<Entry>, i: nat)
    requires Clustered(s) && i < |s|
    ensures Without(s, s[i].api) == s[..i] + s[i + 1..]
    ensures Clustered(s[..i] + s[i + 1..])
  {
    var m := FirstIndex(s, s[i].api);
    assert m <= i && s[m].api == s[i].api;
    assert forall k :: m <= k <= i ==> s[k] == s[m];
    hide FirstIndex;
    StaysClustered(s, i);
    hide Clustered;
    SameRemoval(s, m, i);
  }

  /** Taking out any of some equal entries in a row gives the same list. */
  lemma SameRemoval(s: seq<Entry>, m: nat, i: nat)
    requires m <= i < |s| && forall k :: m <= k <= i ==> s[k] == s[m]
    ensures s[..m] + s[m + 1..] == s[..i] + s[i + 1..]
  {
    assert s[m + 1..] == s[m + 1..i + 1] + s[i + 1..];
    assert s[..i] == s[..m] + s[m..i];
    assert s[m + 1..i + 1] == s[m..i];
  }

  lemma StaysClustered(s: seq<Entry>, i: nat)
    requires Clustered(s) && i < |s|
    ensures Clustered(s[..i] + s[i + 1..])
  {
    var r := s[..i] + s[i + 1..];
    forall a, b, k | 0 <= a <= k <= b < |r| && r[a].api == r[b].api
      ensures r[k] == r[a]
    {
      var a', b', k' := Position(a, i), Position(b, i), Position(k, i);
      assert r[a] == s[a'] && r[b] == s[b'] && r[k] == s[k'];
    }
  }

  /** Where an entry stood before the one at position i was taken out. */
  function Position(k: nat, i: nat): nat {
    if k < i then k else k + 1
  }

  lemma {:induction false} IterationOfClustered(s: seq<Entry>, f: Callback, i: nat, calls: seq<int>)
    requires i <= |s| && Clustered(s)
    ensures Iterated(s, f, i, calls) == (calls + Apis(s[i..]), s[..i] + Accepted(s[i..], f, |calls|))
    decreases |s| - i
  {
    if i == |s| {
      assert s[..i] + [] == s && calls + [] == calls;
    } else {
      var calls' := calls + [s[i].api];
      assert calls' + Apis(s[i + 1..]) == calls + Apis(s[i..]);
      assert s[i..][1..] == s[i + 1..];
      hide Clustered, Without;
      if f(|calls|, s[i].api) == SENSOR_OK {
        IterationOfClustered(s, f, i + 1, calls');
        assert s[..i + 1] + Accepted(s[i + 1..], f, |calls'|) == s[..i] + Accepted(s[i..], f, |calls|);
      } else {
        WithoutOneOfCluster(s, i);
        var s' := s[..i] + s[i + 1..];
        assert s'[..i] == s[..i] && s'[i..] == s[i + 1..];
        IterationOfClustered(s', f, i, calls');
        assert Accepted(s[i..], f, |calls|) == Accepted(s[i + 1..], f, |calls'|);
      }
    }
  }

  lemma ClusteredIteration(s: seq<Entry>, f: Callback)
    ensures Clustered(s) ==> Iterated(s, f, 0, []) == (Apis(s), Accepted(s, f, 0))
  {
    if Clustered(s) {
      IterationOfClustered(s, f, 0, []);
      assert s[0..] == s && [] + Apis(s) == Apis(s) && s[..0] + Accepted(s, f, 0) == Accepted(s, f, 0);
    }
  }

  /** A callback that rejects its j-th call only. */
  function RejectOnly(j: nat): Callback {
    (n: nat, api: int) => if n == j then 1 else SENSOR_OK
  }

  lemma {:induction false} QuietIteration(s: seq<Entry>, j: nat, i: nat, calls: seq<int>, m: nat)
    requires i <= m <= |s| && (|calls| + (m - i) <= j || j < |calls|)
    ensures Iterated(s, RejectOnly(j), i, calls) == Iterated(s, RejectOnly(j), m, calls + Apis(s[i..m]))
    decreases m - i
  {
    if i == m {
      assert calls + Apis(s[i..m]) == calls;
    } else {
      QuietIteration(s, j, i + 1, calls + [s[i].api], m);
      assert calls + [s[i].api] + Apis(s[i + 1..m]) == calls + Apis(s[i..m]);
    }
  }

  lemma {:induction false} AcceptedButOne(s: seq<Entry>, j: nat, n: nat)
    requires n <= j < n + |s|
    ensures Accepted(s, RejectOnly(j), n) == s[..j - n] + s[j - n + 1..]
    decreases |s|
  {
    if n == j {
      AcceptedAll(s[1..], j, n + 1);
    } else {
      AcceptedButOne(s[1..], j, n + 1);
    }
  }

  lemma {:induction false} AcceptedAll(s: seq<Entry>, j: nat, n: nat)
    requires j < n
    ensures Accepted(s, RejectOnly(j), n) == s
  {
    if s == [] {
    } else {
      AcceptedAll(s[1..], j, n + 1);
    }
  }

  /** When an API is registered twice, rejecting the later one removes the earlier entry. */
  lemma LaterDuplicateRemovesEarlier(s: seq<Entry>, j: nat)
    requires j < |s|
    ensures Iterated(s, RejectOnly(j), 0, []).1 == Without(s, s[j].api)
  {
    QuietIteration(s, j, 0, [], j);
    var calls := Apis(s[0..j]);
    assert [] + calls == calls;
    var w := Without(s, s[j].api);
    assert |w| == |s| - 1;
    QuietIteration(w, j, j, calls + [s[j].api], |w|);
  }

  /** Main result: iteration calls every API once, in order, and keeps exactly the accepted entries, for every callback,
    if and only if entries with the same API are next to each other and identical. */
  lemma IterationCorrectIffClustered(s: seq<Entry>)
    ensures Clustered(s) <==> forall f: Callback :: Iterated(s, f, 0, []) == (Apis(s), Accepted(s, f, 0))
  {
    if Clustered(s) {
      forall f: Callback
        ensures Iterated(s, f, 0, []) == (Apis(s), Accepted(s, f, 0))
      {
        ClusteredIteration(s, f);
      }
    } else {
      var i, j, k :| 0 <= i <= k <= j < |s| && s[i].api == s[j].api && s[k] != s[i];
      hide Iterated, Accepted, Clustered;
      RejectingDuplicate(s, i, j, k);
    }
  }

  lemma RejectingDuplicate(s: seq<Entry>, i: nat, j: nat, k: nat)
    requires i <= k <= j < |s| && s[i].api == s[j].api && s[k] != s[i]
    ensures Iterated(s, RejectOnly(j), 0, []) != (Apis(s), Accepted(s, RejectOnly(j), 0))
  {
    hide FirstIndex, Apis;
    LaterDuplicateRemovesEarlier(s, j);
    AcceptedButOne(s, j, 0);
    hide Iterated, Accepted;
    var m := FirstIndex(s, s[j].api);
    assert m <= i;
    if s[..m] + s[m + 1..] == s[..j] + s[j + 1..] {
      EqualRun(s, m, j, i);
      EqualRun(s, m, j, k);
      assert false;
    }
  }

  /** If taking out entry m or entry j gives the same list, all entries from m to j are equal. */
  lemma {:induction false} EqualRun(s: seq<Entry>, m: nat, j: nat, k: nat)
    requires m <= k <= j < |s| && s[..m] + s[m + 1..] == s[..j] + s[j + 1..]
    ensures s[k] == s[m]
    decreases k - m
  {
    if k == m {
    } else {
      EqualRun(s, m, j, k - 1);
      assert (s[..m] + s[m + 1..])[k - 1] == s[k] && (s[..j] + s[j + 1..])[k - 1] == s[k - 1];
    }
  }

  /** One sensor registered twice is iterated correctly. */
  lemma SameSensorTwice(e: Entry, f: Callback)
    ensures Iterated([e, e], f, 0, []) == ([e.api, e.api], Accepted([e, e], f, 0)) && !Distinct([e, e])
  {
    var s := [e, e];
    assert Clustered(s) && s[0].api == s[1].api && Apis(s) == [e.api, e.api];
    ClusteredIteration(s, f);
  }

  /** Two sensors with one API: rejecting the second call removes the first sensor. */
  lemma SecondRejectedFirstRemoved(a: Entry, b: Entry)
    requires a.api == b.api && a != b
    ensures Iterated([a, b], RejectOnly(1), 0, []).1 == [b]
    ensures Accepted([a, b], RejectOnly(1), 0) == [a]
  {
    var s := [a, b];
    LaterDuplicateRemovesEarlier(s, 1);
    AcceptedButOne(s, 1, 0);
    assert FirstIndex(s, b.api) == 0;
  }

  lemma {:induction false} AcceptedOneMore(s: seq<Entry>, f: Callback, n: nat, e: Entry)
    ensures Accepted(s + [e], f, n) == Accepted(s, f, n) + if f(n + |s|, e.api) == 0 then [e] else []
  {
    if s == [] {
      assert [e][1..] == [];
    } else {
      AcceptedOneMore(s[1..], f, n + 1, e);
      assert (s + [e])[1..] == s[1..] + [e];
    }
  }

  /** Of the first m entries, the accepted ones are those whose call returned 0, in list order. */
  lemma {:induction false} AcceptedReturnedZero(s: seq<Entry>, f: Callback, m: nat) returns (kept: seq<nat>)
    requires m <= |s|
    ensures forall a, b :: 0 <= a < b < |kept| ==> kept[a] < kept[b]
    ensures forall j: nat :: j in kept <==> j < m && f(j, s[j].api) == 0
    ensures |Accepted(s[..m], f, 0)| == |kept|
    ensures forall k :: 0 <= k < |kept| ==> kept[k] < m && Accepted(s[..m], f, 0)[k] == s[kept[k]]
  {
    if m == 0 {
      kept := [];
    } else {
      kept := AcceptedReturnedZero(s, f, m - 1);
      assert s[..m] == s[..m - 1] + [s[m - 1]];
      AcceptedOneMore(s[..m - 1], f, 0, s[m - 1]);
      hide Accepted;
      if f(m - 1, s[m - 1].api) == 0 {
        kept := kept + [m - 1];
      }
    }
  }
}
