/** What a driver does in every run of the Android sensors, in terms of the calls made for each handle. */
module AndroidHistory {
  import opened Options
  import opened Multiplexer
  import opened MultiplexerRuns
  import opened AndroidSensors

  /** The two sensors: magnetic field and uncalibrated magnetic field. */
  predicate IsHandle(handle: int) {
    handle == 3 || handle == 14
  }

  /** Of the calls that enable or disable a handle of group c, the last one enables it. */
  predicate HandleOn(steps: seq<Step>, c: nat, handle: int, n: nat)
    requires n <= |steps|
  {
    n > 0 &&
    match steps[n - 1]
    case EnableSensor(b, h) => (b == c && h == handle) || HandleOn(steps, c, handle, n - 1)
    case DisableSensor(b, h) => !(b == c && h == handle) && HandleOn(steps, c, handle, n - 1)
    case _ => HandleOn(steps, c, handle, n - 1)
  }

  /** The delay last requested for a handle of group c since it was disabled, or -1. */
  function HandleRequest(steps: seq<Step>, c: nat, handle: int, n: nat): int64
    requires n <= |steps|
  {
    if n == 0 then -1 else
    match steps[n - 1]
    case DisableSensor(b, h) => if b == c && h == handle then -1 else HandleRequest(steps, c, handle, n - 1)
    case DelaySensor(b, h, ns) => if b == c && h == handle then ns else HandleRequest(steps, c, handle, n - 1)
    case _ => HandleRequest(steps, c, handle, n - 1)
  }

  /** Exactly these two handles are known, and they are different sensors. */
  lemma HandlesAreTwoSensors()
    ensures forall handle :: SensorOf(handle).Some? <==> IsHandle(handle)
    ensures SensorOf(3).value != SensorOf(14).value
  {
  }

  /** The group's state is what the calls for each handle say. */
  ghost predicate Tracks(g: Group, steps: seq<Step>, c: nat, n: nat)
    requires n <= |steps|
  {
    forall handle :: IsHandle(handle) ==>
      && SensorOf(handle).Some?
      && (SensorOf(handle).value in g.mask <==> HandleOn(steps, c, handle, n))
      && g.requests[SensorOf(handle).value] == HandleRequest(steps, c, handle, n)
  }

  lemma StepTracks(s: System, steps: seq<Step>, answers: Answers, c: nat, n: nat)
    requires n < |steps| && SystemInv(s) && Permitted(s, steps[n], answers) && c < |s.groups|
    requires Tracks(s.groups[c], steps, c, n)
    ensures var s' := After(s, steps[n], answers);
            |s'.groups| == |s.groups| && Tracks(s'.groups[c], steps, c, n + 1)
  {
    hide SystemInv, Operate, Inv, Apply, Effective, Allowed, Serves;
    HandlesAreTwoSensors();
  }

  lemma {:induction false} GroupTracksSteps(
      states: seq<System>, steps: seq<Step>, answers: Answers, n: nat, c: nat)
    requires IsSystemRun(states, steps, answers) && n <= |steps|
    ensures |states| == |steps| + 1
    ensures c < |states[n].groups| ==> Tracks(states[n].groups[c], steps, c, n)
  {
    if n == 0 {
      HandlesAreTwoSensors();
    } else {
      hide SystemInv, Permitted, After, SystemStart, Tracks;
      GroupTracksSteps(states, steps, answers, n - 1, c);
      SystemRunKeepsInv(states, steps, answers, n - 1);
      assert Permitted(states[n - 1], steps[n - 1], answers);
      assert SystemStep(states[n - 1], steps[n - 1], states[n - 1 + 1], answers);
      SameGroups(states[n - 1], steps[n - 1], answers);
      if c < |states[n].groups| {
        StepTracks(states[n - 1], steps, answers, c, n - 1);
      }
    }
  }

  lemma SameGroups(s: System, e: Step, answers: Answers)
    requires SystemInv(s) && Permitted(s, e, answers)
    ensures |After(s, e, answers).groups| == |s.groups|
  {
    hide Inv, Operate, Apply, Effective, Allowed, Serves, AllExact;
  }

  /** A handle of group c is enabled. */
  ghost predicate SomeHandleOn(steps: seq<Step>, c: nat, n: nat)
    requires n <= |steps|
  {
    exists handle :: IsHandle(handle) && HandleOn(steps, c, handle, n)
  }

  /** A handle of a group attached to driver i is enabled and asks for a delay of q. */
  ghost predicate HandleAsks(s: System, steps: seq<Step>, i: nat, n: nat, q: int64)
    requires n <= |steps| && i < |s.mux.list|
  {
    exists c: nat, handle: int :: c < |s.groups| && AttachedTo(s, c, i) && IsHandle(handle)
      && HandleOn(steps, c, handle, n) && HandleRequest(steps, c, handle, n) == q && q >= 0
  }

  lemma MaskIsEmptyIff(g: Group, steps: seq<Step>, c: nat, n: nat)
    requires n <= |steps| && Tracks(g, steps, c, n) && g.mask <= {0, 1}
    ensures g.mask != {} <==> SomeHandleOn(steps, c, n)
  {
    HandlesAreTwoSensors();
    assert IsHandle(3) && IsHandle(14);
    if g.mask != {} {
      var k :| k in g.mask;
      assert k == 0 || k == 1;
      assert HandleOn(steps, c, 3, n) || HandleOn(steps, c, 14, n);
    }
  }

  lemma {:induction false} MaskHasTwoBits(states: seq<System>, steps: seq<Step>, answers: Answers, n: nat, c: nat)
    requires IsSystemRun(states, steps, answers) && n <= |steps|
    ensures |states| == |steps| + 1
    ensures c < |states[n].groups| ==> states[n].groups[c].mask <= {0, 1}
  {
    if n == 0 {
    } else {
      MaskHasTwoBits(states, steps, answers, n - 1, c);
      SystemRunKeepsInv(states, steps, answers, n - 1);
      assert Permitted(states[n - 1], steps[n - 1], answers);
      assert SystemStep(states[n - 1], steps[n - 1], states[n - 1 + 1], answers);
      MaskAfterStep(states[n - 1], steps[n - 1], answers, c);
    }
  }

  lemma MaskAfterStep(s: System, e: Step, answers: Answers, c: nat)
    requires SystemInv(s) && Permitted(s, e, answers) && (c < |s.groups| ==> s.groups[c].mask <= {0, 1})
    ensures var s' := After(s, e, answers); c < |s'.groups| ==> s'.groups[c].mask <= {0, 1}
  {
    hide SystemInv, Operate, Inv, Apply, Effective, Allowed, Serves;
  }

  /** Main result: in every run, a client's slots are active exactly while one of its two handles is enabled. */
  lemma ClientActiveIffHandleOn(
      states: seq<System>, steps: seq<Step>, answers: Answers, n: nat, c: nat, i: nat, j: nat)
    requires IsSystemRun(states, steps, answers) && n <= |steps|
    requires i < |states[n].mux.list| && j < states[n].mux.list[i].nr
    requires states[n].mux.list[i].slots[j].api == Some(c)
    ensures c < |states[n].groups|
    ensures ACTIVE in states[n].mux.list[i].slots[j].status <==> SomeHandleOn(steps, c, n)
  {
    hide IsSystemRun, Inv, AllExact, Serves, Tracks, SomeHandleOn;
    SystemRunKeepsInv(states, steps, answers, n);
    GroupTracksSteps(states, steps, answers, n, c);
    MaskHasTwoBits(states, steps, answers, n, c);
    SlotHasClient(states[n].mux, i, j);
    ServedSlot(states[n], c, i, j);
    MaskIsEmptyIff(states[n].groups[c], steps, c, n);
  }

  lemma AsksIffHandleAsks(states: seq<System>, steps: seq<Step>, answers: Answers, n: nat, i: nat, q: int64)
    requires IsSystemRun(states, steps, answers) && n <= |steps| && n < |states| && i < |states[n].mux.list|
    ensures Asks(states[n], i, q) <==> HandleAsks(states[n], steps, i, n, q)
  {
    hide IsSystemRun, AttachedTo;
    HandlesAreTwoSensors();
    var s := states[n];
    if Asks(s, i, q) {
      var c, k :| 0 <= c < |s.groups| && AttachedTo(s, c, i) && 0 <= k < NUMSENSORS
                  && k in s.groups[c].mask && s.groups[c].requests[k] == q && q >= 0;
      GroupTracksSteps(states, steps, answers, n, c);
      var handle := if k == 0 then 3 else 14;
      assert IsHandle(handle) && SensorOf(handle).value == k;
    }
    if HandleAsks(s, steps, i, n, q) {
      var c: nat, handle: int :| c < |s.groups| && AttachedTo(s, c, i) && IsHandle(handle)
        && HandleOn(steps, c, handle, n) && HandleRequest(steps, c, handle, n) == q && q >= 0;
      GroupTracksSteps(states, steps, answers, n, c);
      var k := SensorOf(handle).value;
      assert k in s.groups[c].mask && s.groups[c].requests[k] == q;
    }
  }

  /** Main result: in every run of permitted steps, a driver that enabled handles ask for a rate runs at the smallest
    delay last requested for any of them, and it is enabled exactly while a handle of an attached group is. */
  lemma DriverServesHandles(states: seq<System>, steps: seq<Step>, answers: Answers, n: nat, i: nat)
    requires IsSystemRun(states, steps, answers) && n <= |steps| && i < |states[n].mux.list|
    ensures var s := states[n];
            var calls := s.mux.list[i].calls;
            && (forall q :: HandleAsks(s, steps, i, n, q) ==>
                  && LastDelay(calls).Some? && LastDelay(calls).value <= q
                  && HandleAsks(s, steps, i, n, LastDelay(calls).value))
            && (LastEnable(calls) <==>
                  exists c: nat :: c < |s.groups| && AttachedTo(s, c, i) && SomeHandleOn(steps, c, n))
  {
    hide IsSystemRun, AttachedTo, SomeHandleOn, HandleAsks, Asks, Tracks;
    SystemRunKeepsInv(states, steps, answers, n);
    DriverServesFastestSensor(states, steps, answers, n, i);
    forall q
      ensures Asks(states[n], i, q) <==> HandleAsks(states[n], steps, i, n, q)
    {
      AsksIffHandleAsks(states, steps, answers, n, i, q);
    }
    forall c: nat | c < |states[n].groups|
      ensures states[n].groups[c].mask != {} <==> SomeHandleOn(steps, c, n)
    {
      GroupTracksSteps(states, steps, answers, n, c);
      MaskHasTwoBits(states, steps, answers, n, c);
      MaskIsEmptyIff(states[n].groups[c], steps, c, n);
    }
  }
}
