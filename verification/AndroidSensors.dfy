/** Two-level sharing (sensors/wrappers/ak0991xna_sensors.c): several Android sensors are served through one client
  of the multiplexer. */
module AndroidSensors {
  import opened Options
  import opened Multiplexer
  import opened MultiplexerRuns
  import opened Wrapper

  /** MAGNETIC and MAGNETIC_UNCALIB. */
  const NUMSENSORS := 2
  const MAGNETIC_FIELD_HANDLE := 3
  const MAGNETIC_FIELD_UNCALIBRATED_HANDLE := 14
  const UNUSED: int64 := NO_RATE

  type Requests = r: seq<int64> | |r| == NUMSENSORS witness [UNUSED, UNUSED]

  /** One group of Android sensors: the enable bits, the requested delays, and whether init was called. */
  datatype Group = Group(mask: set<nat>, requests: Requests, init: bool)

  /** The multiplexer, and for each of its clients the group of sensors behind it. */
  datatype System = System(mux: State, groups: seq<Group>)

  /** The smallest delay requested by an enabled sensor among the first n. */
  function Fastest(mask: set<nat>, requests: Requests, n: nat): (r: int64)
    requires n <= NUMSENSORS
    ensures r == UNUSED || exists i :: 0 <= i < n && i in mask && requests[i] == r
    ensures forall i :: 0 <= i < n && i in mask && requests[i] >= 0 ==> r != UNUSED && r <= requests[i]
  {
    if n == 0 then UNUSED else
    var r := Fastest(mask, requests, n - 1);
    var q := requests[n - 1];
    if n - 1 in mask && q != UNUSED && (r == UNUSED || r > q) then q else r
  }

  function Effective(g: Group): int64 {
    Fastest(g.mask, g.requests, NUMSENSORS)
  }

  // ---- the operations, on the multiplexer and one group ----

  /** The value `sensors_wrapper_init` returns. */
  ghost function InitCode(mux: State, c: nat, answers: Answers): int
    requires Allowed(mux, Event.Init(c), answers)
  {
    InitLinks(mux.list, mux.descs[c].wanted, mux.descs[c].links, c, -1, answers).err
  }

  /** `ak0991x_delay`. */
  ghost function Delay(mux: State, c: nat, g: Group, sensor: nat, ns: int64): (State, Group)
    requires Inv(mux) && c < |mux.descs| && sensor < NUMSENSORS
  {
    var g' := g.(requests := g.requests[sensor := ns]);
    (Operate(mux, c, OpSetDelay(Effective(g'))), g')
  }

  /** `ak0991x_activate` with enable set: only the first sensor of the group activates the client. */
  ghost function Enable(mux: State, c: nat, g: Group, sensor: nat): (State, Group)
    requires Inv(mux) && c < |mux.descs|
  {
    (if g.mask != {} then mux else Operate(mux, c, OpActivate(true)), g.(mask := g.mask + {sensor}))
  }

  /** `ak0991x_activate` with enable clear: the request is dropped, and the last sensor deactivates the client. */
  ghost function Disable(mux: State, c: nat, g: Group, sensor: nat): (State, Group)
    requires Inv(mux) && c < |mux.descs| && sensor < NUMSENSORS
  {
    var (mux', g') := Delay(mux, c, g, sensor, UNUSED);
    OperateKeepsInv(mux, c, OpSetDelay(Effective(g')));
    var mask := g'.mask - {sensor};
    (if mask != {} then mux' else Operate(mux', c, OpActivate(false)), g'.(mask := mask))
  }

  /** `ak0991x_close`: the client is closed when no sensor of the group is enabled. */
  ghost function CloseIdle(mux: State, c: nat, g: Group): State
    requires Inv(mux) && c < |mux.descs|
  {
    if g.mask == {} then Operate(mux, c, OpClose) else mux
  }

  /** The value `ak0991x_activate` returns: 0 when the client is left as it is. */
  ghost function ActivateCode(mux: State, c: nat, g: Group, sensor: nat, enable: bool, answers: Answers): int
    requires Inv(mux) && c < |mux.descs| && sensor < NUMSENSORS
  {
    if enable then
      if g.mask != {} then 0 else Answered(mux, c, OpActivate(true), answers)
    else
      var (mux', g') := Delay(mux, c, g, sensor, UNUSED);
      OperateKeepsInv(mux, c, OpSetDelay(Effective(g')));
      if g'.mask - {sensor} != {} then 0 else Answered(mux', c, OpActivate(false), answers)
  }

  /** The switch on the handle of the calling sensor. */
  function SensorOf(handle: int): (sensor: Option<nat>)
    ensures sensor.Some? ==> sensor.value < NUMSENSORS
  {
    if handle == MAGNETIC_FIELD_HANDLE then Some(0)
    else if handle == MAGNETIC_FIELD_UNCALIBRATED_HANDLE then Some(1)
    else None
  }

  /** One group of sensors in front of the shared wrapper list. */
  class SensorGroup {
    const wrapper: WrapperList
    const client: nat
    var enableMask: set<nat>
    var delayRequests: Requests
    var init: bool
    var initRet: int

    constructor (wrapper: WrapperList, client: nat)
      ensures this.wrapper == wrapper && this.client == client
      ensures Contents() == Group({}, [UNUSED, UNUSED], false)
    {
      this.wrapper, this.client := wrapper, client;
      enableMask, delayRequests, init, initRet := {}, [UNUSED, UNUSED], false, -1;
    }

    ghost function Contents(): Group
      reads this
    {
      Group(enableMask, delayRequests, init)
    }

    ghost predicate Valid()
      reads wrapper
    {
      wrapper.Valid() && client < |wrapper.descs|
    }

    /** `ak0991x_init`: the client is attached on the first call only; later calls repeat its result. */
    method Init() returns (ret: int)
      requires Valid()
      requires !init ==> Allowed(wrapper.Contents(), Event.Init(client), wrapper.answers)
      modifies this, wrapper
      ensures Valid() && ret == initRet
      ensures Contents() == old(Contents()).(init := true)
      ensures wrapper.Contents() == if old(init) then old(wrapper.Contents())
                                    else Apply(old(wrapper.Contents()), Event.Init(client), wrapper.answers)
      ensures ret == if old(init) then old(initRet)
                     else InitCode(old(wrapper.Contents()), client, wrapper.answers)
    {
      hide Inv, Apply;
      if !init {
        init := true;
        initRet := wrapper.Init(client);
      }
      return initRet;
    }

    /** `ak0991x_close`. */
    method Close()
      requires Valid()
      modifies wrapper
      ensures Valid() && Contents() == old(Contents()) && initRet == old(initRet)
      ensures wrapper.Contents() == CloseIdle(old(wrapper.Contents()), client, old(Contents()))
    {
      hide Inv, Operate;
      if enableMask == {} {
        wrapper.Close(client);
      }
    }

    /** `ak0991x_delay`. */
    method SetDelay(handle: int, ns: int64) returns (rv: int)
      requires Valid()
      modifies this, wrapper
      ensures Valid() && init == old(init) && initRet == old(initRet)
      ensures SensorOf(handle) == None ==>
                rv == -1 && Contents() == old(Contents()) && wrapper.Contents() == old(wrapper.Contents())
      ensures SensorOf(handle).Some? ==>
                (wrapper.Contents(), Contents())
                == Delay(old(wrapper.Contents()), client, old(Contents()), SensorOf(handle).value, ns)
      ensures SensorOf(handle).Some? ==>
                rv == Answered(old(wrapper.Contents()), client, OpSetDelay(Effective(Contents())), wrapper.answers)
    {
      hide Inv, Operate;
      var s := SensorOf(handle);
      if s == None {
        return -1;
      }
      delayRequests := delayRequests[s.value := ns];
      var delay: int64 := UNUSED;
      for i := 0 to NUMSENSORS
        invariant delay == Fastest(enableMask, delayRequests, i)
      {
        if i in enableMask && delayRequests[i] != UNUSED {
          if delay == UNUSED || delay > delayRequests[i] {
            delay := delayRequests[i];
          }
        }
      }
      rv := wrapper.SetDelay(client, delay);
    }

    /** `ak0991x_activate`. */
    method Activate(handle: int, enable: bool) returns (rv: int)
      requires Valid()
      modifies this, wrapper
      ensures Valid() && init == old(init) && initRet == old(initRet)
      ensures SensorOf(handle) == None ==>
                rv == -1 && Contents() == old(Contents()) && wrapper.Contents() == old(wrapper.Contents())
      ensures SensorOf(handle).Some? ==>
                (wrapper.Contents(), Contents())
                == if enable then Enable(old(wrapper.Contents()), client, old(Contents()), SensorOf(handle).value)
                   else Disable(old(wrapper.Contents()), client, old(Contents()), SensorOf(handle).value)
      ensures SensorOf(handle).Some? ==>
                rv == ActivateCode(old(wrapper.Contents()), client, old(Contents()), SensorOf(handle).value, enable,
                                   wrapper.answers)
    {
      hide Inv, Operate, Delay;
      var s := SensorOf(handle);
      if s == None {
        return -1;
      }
      if enable {
        var prevEn := enableMask;
        enableMask := enableMask + {s.value};
        if prevEn != {} {
          return 0;
        }
      } else {
        var _ := SetDelay(handle, UNUSED);
        enableMask := enableMask - {s.value};
        if enableMask != {} {
          return 0;
        }
      }
      rv := wrapper.Activate(client, enable);
    }
  }

  // ---- what holds of the whole system ----

  /** Calls from outside; a sensor is named by its handle. */
  datatype Step = Register(sensor: nat, kind: int) | InitGroup(c: nat) | EnableSensor(c: nat, handle: int)
                | DisableSensor(c: nat, handle: int) | DelaySensor(c: nat, handle: int, ns: int64)
                | CloseGroup(c: nat)

  ghost predicate WellFormed(s: System) {
    Inv(s.mux) && |s.groups| == |s.mux.descs|
  }

  /** The client's slots are active iff a sensor of the group is enabled, and ask for the group's fastest request. */
  ghost predicate SlotsServe(mux: State, c: nat, g: Group) {
    forall i, j :: 0 <= i < |mux.list| && 0 <= j < mux.list[i].nr && mux.list[i].slots[j].api == Some(c) ==>
      (ACTIVE in mux.list[i].slots[j].status <==> g.mask != {}) && mux.list[i].slots[j].rate == Effective(g)
  }

  /** Only enabled sensors have a request. */
  ghost predicate Serves(mux: State, c: nat, g: Group) {
    && (forall k :: 0 <= k < NUMSENSORS && g.requests[k] != UNUSED ==> g.requests[k] >= 0 && k in g.mask)
    && SlotsServe(mux, c, g)
  }

  ghost predicate SystemInv(s: System) {
    WellFormed(s) && AllExact(s.mux) && forall c :: 0 <= c < |s.groups| ==> Serves(s.mux, c, s.groups[c])
  }

  /** A group is initialised before it is used; a delay is non-negative and set only while its sensor is enabled. */
  ghost predicate Permitted(s: System, e: Step, answers: Answers) {
    match e
    case Register(_, _) => true
    case InitGroup(c) =>
      c < |s.groups| && (!s.groups[c].init ==> s.groups[c].mask == {} && Allowed(s.mux, Event.Init(c), answers))
    case EnableSensor(c, handle) => c < |s.groups|
    case DisableSensor(c, handle) => c < |s.groups|
    case DelaySensor(c, handle, ns) =>
      c < |s.groups| && (SensorOf(handle).Some? ==> ns >= 0 && SensorOf(handle).value in s.groups[c].mask)
    case CloseGroup(c) => c < |s.groups|
  }

  ghost function After(s: System, e: Step, answers: Answers): System
    requires WellFormed(s) && Permitted(s, e, answers)
  {
    match e
    case Register(sensor, kind) => s.(mux := Apply(s.mux, Event.Register(sensor, kind), answers))
    case InitGroup(c) =>
      if s.groups[c].init then s
      else System(Apply(s.mux, Event.Init(c), answers), s.groups[c := s.groups[c].(init := true)])
    case EnableSensor(c, handle) =>
      if SensorOf(handle) == None then s else
      var r := Enable(s.mux, c, s.groups[c], SensorOf(handle).value);
      System(r.0, s.groups[c := r.1])
    case DisableSensor(c, handle) =>
      if SensorOf(handle) == None then s else
      var r := Disable(s.mux, c, s.groups[c], SensorOf(handle).value);
      System(r.0, s.groups[c := r.1])
    case DelaySensor(c, handle, ns) =>
      if SensorOf(handle) == None then s else
      var r := Delay(s.mux, c, s.groups[c], SensorOf(handle).value, ns);
      System(r.0, s.groups[c := r.1])
    case CloseGroup(c) => s.(mux := CloseIdle(s.mux, c, s.groups[c]))
  }

  /** An operation of client c changes the slots of c as SlotAfter says and leaves those of other clients alone. */
  lemma ServesAfterOperate(mux: State, b: nat, op: Operation, c: nat, g: Group, g': Group)
    requires Inv(mux) && b < |mux.descs| && Serves(mux, c, g)
    requires forall k :: 0 <= k < NUMSENSORS && g'.requests[k] != UNUSED ==> g'.requests[k] >= 0 && k in g'.mask
    requires b != c ==> g' == g
    requires b == c ==>
               match op
               case OpActivate(true) => g'.mask != {} && Effective(g') == Effective(g)
               case OpActivate(false) => g'.mask == {} && Effective(g') == NO_RATE
               case OpSetDelay(ns) => g'.mask == g.mask && Effective(g') == ns
               case OpClose => g' == g && Effective(g) == NO_RATE
    ensures Serves(Operate(mux, b, op), c, g')
  {
    hide Inv, Operate, Effective;
    var mux' := Operate(mux, b, op);
    forall i, j | 0 <= i < |mux'.list| && 0 <= j < mux'.list[i].nr && mux'.list[i].slots[j].api == Some(c)
      ensures (ACTIVE in mux'.list[i].slots[j].status <==> g'.mask != {}) && mux'.list[i].slots[j].rate == Effective(g')
    {
      SameListLength(mux, b, op);
      SameNr(mux, b, op, i);
      OperateChangesOwnSlots(mux, b, op, i, j);
    }
  }

  lemma {:induction false} FastestIgnoresUnused(
      mask: set<nat>, mask': set<nat>, requests: Requests, sensor: nat, n: nat)
    requires n <= NUMSENSORS && sensor < NUMSENSORS && requests[sensor] == UNUSED
    requires mask - {sensor} == mask' - {sensor}
    ensures Fastest(mask, requests, n) == Fastest(mask', requests, n)
  {
    if n == 0 {
    } else {
      FastestIgnoresUnused(mask, mask', requests, sensor, n - 1);
      assert n - 1 != sensor ==> (n - 1 in mask <==> n - 1 in mask - {sensor});
      assert n - 1 != sensor ==> (n - 1 in mask' <==> n - 1 in mask' - {sensor});
    }
  }

  lemma NothingRequestedNothingFast(g: Group, n: nat)
    requires n <= NUMSENSORS && forall k :: 0 <= k < NUMSENSORS && k in g.mask ==> g.requests[k] == UNUSED
    ensures Fastest(g.mask, g.requests, n) == UNUSED
  {
  }

  lemma DelayKeepsServing(mux: State, b: nat, g: Group, sensor: nat, ns: int64, c: nat, h: Group)
    requires Inv(mux) && b < |mux.descs| && sensor < NUMSENSORS
    requires ns == UNUSED || (ns >= 0 && sensor in g.mask)
    requires Serves(mux, b, g) && Serves(mux, c, h) && (b == c ==> h == g)
    ensures Serves(Delay(mux, b, g, sensor, ns).0, c, if b == c then Delay(mux, b, g, sensor, ns).1 else h)
  {
    hide Inv, Operate;
    var g' := g.(requests := g.requests[sensor := ns]);
    ServesAfterOperate(mux, b, OpSetDelay(Effective(g')), c, h, if b == c then g' else h);
  }

  lemma EnableKeepsServing(mux: State, b: nat, g: Group, sensor: nat, c: nat, h: Group)
    requires Inv(mux) && b < |mux.descs| && sensor < NUMSENSORS
    requires Serves(mux, b, g) && Serves(mux, c, h) && (b == c ==> h == g)
    ensures Serves(Enable(mux, b, g, sensor).0, c, if b == c then Enable(mux, b, g, sensor).1 else h)
  {
    hide Inv, Operate;
    var g' := g.(mask := g.mask + {sensor});
    assert Effective(g') == Effective(g) by {
      if sensor in g.mask {
        assert g'.mask == g.mask;
      } else {
        assert g.mask - {sensor} == g'.mask - {sensor};
        FastestIgnoresUnused(g.mask, g'.mask, g.requests, sensor, NUMSENSORS);
      }
    }
    if g.mask == {} {
      ServesAfterOperate(mux, b, OpActivate(true), c, h, if b == c then g' else h);
    }
  }

  lemma DisableKeepsServing(mux: State, b: nat, g: Group, sensor: nat, c: nat, h: Group)
    requires Inv(mux) && b < |mux.descs| && sensor < NUMSENSORS
    requires Serves(mux, b, g) && Serves(mux, c, h) && (b == c ==> h == g)
    ensures Serves(Disable(mux, b, g, sensor).0, c, if b == c then Disable(mux, b, g, sensor).1 else h)
  {
    hide Inv, Operate;
    var (mux', g') := Delay(mux, b, g, sensor, UNUSED);
    var h' := if b == c then g' else h;
    DelayKeepsServing(mux, b, g, sensor, UNUSED, b, g);
    DelayKeepsServing(mux, b, g, sensor, UNUSED, c, h);
    OperateKeepsInv(mux, b, OpSetDelay(Effective(g')));
    SameListLength(mux, b, OpSetDelay(Effective(g')));
    var g'' := g'.(mask := g'.mask - {sensor});
    var h'' := if b == c then g'' else h;
    assert g''.mask - {sensor} == g'.mask - {sensor};
    FastestIgnoresUnused(g'.mask, g''.mask, g'.requests, sensor, NUMSENSORS);
    if g''.mask == {} {
      NothingRequestedNothingFast(g'', NUMSENSORS);
      ServesAfterOperate(mux', b, OpActivate(false), c, h', h'');
    }
  }

  lemma InitKeepsServing(mux: State, b: nat, answers: Answers, c: nat, g: Group)
    requires Inv(mux) && Allowed(mux, Event.Init(b), answers) && Serves(mux, c, g)
    requires b == c ==> g.mask == {}
    ensures Serves(Apply(mux, Event.Init(b), answers), c, g)
  {
    hide Inv, InitLinks, Effective;
    var mux' := Apply(mux, Event.Init(b), answers);
    InitKeepsLength(mux, b, answers);
    if b == c {
      assert Effective(g) == NO_RATE by {
        EmptyMaskIsSlow(g);
      }
    }
    forall i, j | 0 <= i < |mux'.list| && 0 <= j < mux'.list[i].nr && mux'.list[i].slots[j].api == Some(c)
      ensures (ACTIVE in mux'.list[i].slots[j].status <==> g.mask != {}) && mux'.list[i].slots[j].rate == Effective(g)
    {
      InitAddsQuietSlots(mux, b, -1, answers, i, j);
    }
  }

  lemma EmptyMaskIsSlow(g: Group)
    requires g.mask == {}
    ensures Effective(g) == NO_RATE
  {
    NothingRequestedNothingFast(g, NUMSENSORS);
  }

  lemma RegisterKeepsServing(mux: State, sensor: nat, kind: int, answers: Answers, c: nat, g: Group)
    requires Inv(mux) && Serves(mux, c, g)
    ensures Serves(Apply(mux, Event.Register(sensor, kind), answers), c, g)
  {
    hide Inv, Effective;
  }

  /** The operations keep the multiplexer's own invariant, with exact rates, and the list of clients. */
  lemma GroupStepKeepsMux(s: System, e: Step, answers: Answers)
    requires SystemInv(s) && Permitted(s, e, answers)
    ensures WellFormed(After(s, e, answers)) && AllExact(After(s, e, answers).mux)
  {
    hide Inv, AllExact, Operate, InitLinks;
    match e
    case Register(sensor, kind) => StepKeepsInv(s.mux, Event.Register(sensor, kind), answers);
    case InitGroup(c) =>
      if !s.groups[c].init {
        StepKeepsInv(s.mux, Event.Init(c), answers);
      }
    case EnableSensor(c, handle) =>
      OperateKeepsInv(s.mux, c, OpActivate(true));
      SameListLength(s.mux, c, OpActivate(true));
    case DisableSensor(c, handle) =>
      if SensorOf(handle).Some? {
        var (mux', g') := Delay(s.mux, c, s.groups[c], SensorOf(handle).value, UNUSED);
        OperateKeepsInv(s.mux, c, OpSetDelay(Effective(g')));
        SameListLength(s.mux, c, OpSetDelay(Effective(g')));
        OperateKeepsInv(mux', c, OpActivate(false));
        SameListLength(mux', c, OpActivate(false));
      }
    case DelaySensor(c, handle, ns) =>
      if SensorOf(handle).Some? {
        var g := s.groups[c].(requests := s.groups[c].requests[SensorOf(handle).value := ns]);
        OperateKeepsInv(s.mux, c, OpSetDelay(Effective(g)));
        SameListLength(s.mux, c, OpSetDelay(Effective(g)));
      }
    case CloseGroup(c) =>
      OperateKeepsInv(s.mux, c, OpClose);
      SameListLength(s.mux, c, OpClose);
      if s.groups[c].mask == {} {
        CloseOfIdleGroup(s.mux, c, s.groups[c]);
      }
  }

  /** An idle group asks for no rate, so closing its client leaves no driver too fast. */
  lemma CloseOfIdleGroup(mux: State, c: nat, g: Group)
    requires Inv(mux) && AllExact(mux) && c < |mux.descs| && SlotsServe(mux, c, g) && g.mask == {}
    ensures AllExact(Operate(mux, c, OpClose))
  {
    hide Inv, AllExact, Operate, Effective;
    EmptyMaskIsSlow(g);
    QuietCloseKeepsExact(mux, c);
  }

  /** Every permitted step keeps the system invariant. */
  lemma StepKeepsSystemInv(s: System, e: Step, answers: Answers)
    requires SystemInv(s) && Permitted(s, e, answers)
    ensures SystemInv(After(s, e, answers))
  {
    GroupStepKeepsMux(s, e, answers);
    var s' := After(s, e, answers);
    forall c | 0 <= c < |s'.groups|
      ensures Serves(s'.mux, c, s'.groups[c])
    {
      assert Serves(s.mux, c, s.groups[c]);
      GroupStepKeepsServing(s, e, answers, c);
    }
  }

  lemma GroupStepKeepsServing(s: System, e: Step, answers: Answers, c: nat)
    requires SystemInv(s) && Permitted(s, e, answers) && c < |s.groups|
    ensures |After(s, e, answers).groups| == |s.groups|
    ensures Serves(After(s, e, answers).mux, c, After(s, e, answers).groups[c])
  {
    hide Inv, AllExact, Apply, Delay, Enable, Disable, CloseIdle, Serves, Allowed;
    match e
    case Register(sensor, kind) => RegisterKeepsServing(s.mux, sensor, kind, answers, c, s.groups[c]);
    case InitGroup(b) =>
      if !s.groups[b].init {
        InitKeepsServing(s.mux, b, answers, c, s.groups[c]);
        ServingIgnoresInit(Apply(s.mux, Event.Init(b), answers), c, s.groups[c], true);
      }
    case EnableSensor(b, handle) =>
      if SensorOf(handle).Some? {
        EnableKeepsServing(s.mux, b, s.groups[b], SensorOf(handle).value, c, s.groups[c]);
      }
    case DisableSensor(b, handle) =>
      if SensorOf(handle).Some? {
        DisableKeepsServing(s.mux, b, s.groups[b], SensorOf(handle).value, c, s.groups[c]);
      }
    case DelaySensor(b, handle, ns) =>
      if SensorOf(handle).Some? {
        DelayKeepsServing(s.mux, b, s.groups[b], SensorOf(handle).value, ns, c, s.groups[c]);
      }
    case CloseGroup(b) => CloseKeepsServing(s.mux, b, s.groups[b], c, s.groups[c]);
  }

  lemma CloseKeepsServing(mux: State, b: nat, g: Group, c: nat, h: Group)
    requires Inv(mux) && b < |mux.descs| && Serves(mux, c, h) && (b == c ==> h == g)
    ensures Serves(CloseIdle(mux, b, g), c, h)
  {
    hide Inv, Operate, Effective;
    if g.mask == {} {
      if b == c {
        EmptyMaskIsSlow(h);
      }
      ServesAfterOperate(mux, b, OpClose, c, h, h);
    }
  }

  lemma ServingIgnoresInit(mux: State, c: nat, g: Group, init: bool)
    requires Serves(mux, c, g)
    ensures Serves(mux, c, g.(init := init))
  {
    assert Effective(g.(init := init)) == Effective(g);
  }

  ghost predicate SystemStart(s: System) {
    && Start(s.mux) && |s.groups| == |s.mux.descs|
    && forall c :: 0 <= c < |s.groups| ==> s.groups[c] == Group({}, [UNUSED, UNUSED], false)
  }

  ghost predicate SystemStep(s: System, e: Step, s': System, answers: Answers) {
    SystemInv(s) && Permitted(s, e, answers) ==> s' == After(s, e, answers)
  }

  /** A run in which every step is permitted. */
  ghost predicate IsSystemRun(states: seq<System>, steps: seq<Step>, answers: Answers) {
    && |states| == |steps| + 1
    && SystemStart(states[0])
    && forall i :: 0 <= i < |steps| ==>
         Permitted(states[i], steps[i], answers) && SystemStep(states[i], steps[i], states[i + 1], answers)
  }

  lemma SystemStartHasInv(s: System)
    requires SystemStart(s)
    ensures SystemInv(s)
  {
    StartHasInv(s.mux);
  }

  lemma {:induction false} SystemRunKeepsInv(states: seq<System>, steps: seq<Step>, answers: Answers, n: nat)
    requires IsSystemRun(states, steps, answers) && n <= |steps|
    ensures |states| == |steps| + 1 && SystemInv(states[n])
  {
    hide SystemInv, Permitted, After, SystemStart;
    if n == 0 {
      SystemStartHasInv(states[0]);
    } else {
      SystemRunKeepsInv(states, steps, answers, n - 1);
      assert Permitted(states[n - 1], steps[n - 1], answers);
      assert SystemStep(states[n - 1], steps[n - 1], states[n - 1 + 1], answers);
      StepKeepsSystemInv(states[n - 1], steps[n - 1], answers);
    }
  }

  /** The group has a client slot on the driver. */
  ghost predicate AttachedTo(s: System, c: nat, i: nat)
    requires i < |s.mux.list|
  {
    exists j :: 0 <= j < s.mux.list[i].nr && s.mux.list[i].slots[j].api == Some(c)
  }

  /** An enabled sensor of a group attached to the driver asks for a delay of q. */
  ghost predicate Asks(s: System, i: nat, q: int64)
    requires i < |s.mux.list|
  {
    exists c, k :: 0 <= c < |s.groups| && AttachedTo(s, c, i) && 0 <= k < NUMSENSORS
                   && k in s.groups[c].mask && s.groups[c].requests[k] == q && q >= 0
  }

  /** Every slot in use belongs to a known client. */
  lemma SlotHasClient(mux: State, i: nat, j: nat)
    requires Inv(mux) && i < |mux.list| && j < mux.list[i].nr
    ensures mux.list[i].slots[j].api.Some? && mux.list[i].slots[j].api.value < |mux.descs|
  {
    assert HasOwner(mux, i, j);
    var c, k :| 0 <= c < |mux.descs| && 0 <= k < |mux.descs[c].links| && mux.descs[c].links[k] == Link(i, j);
    assert Backed(mux, c, k);
  }

  lemma ServedSlot(s: System, c: nat, i: nat, j: nat)
    requires SystemInv(s) && c < |s.groups| && i < |s.mux.list| && j < s.mux.list[i].nr
    requires s.mux.list[i].slots[j].api == Some(c)
    ensures ACTIVE in s.mux.list[i].slots[j].status <==> s.groups[c].mask != {}
    ensures s.mux.list[i].slots[j].rate == Effective(s.groups[c])
    ensures forall k :: 0 <= k < NUMSENSORS && s.groups[c].requests[k] != UNUSED ==> s.groups[c].requests[k] >= 0
  {
    hide Inv, AllExact;
    assert Serves(s.mux, c, s.groups[c]);
  }

  lemma DriverOfSystem(s: System, i: nat)
    requires SystemInv(s) && i < |s.mux.list|
    ensures RateExact(s.mux.list[i]) && (LastEnable(s.mux.list[i].calls) <==> Has(s.mux.list[i], ACTIVE))
  {
    hide Owned;
    assert DriverOk(s.mux.list[i]);
  }

  lemma FastestRequestReachesDriver(s: System, i: nat, q: int64)
    requires SystemInv(s) && i < |s.mux.list| && Asks(s, i, q)
    ensures var calls := s.mux.list[i].calls;
            LastDelay(calls).Some? && LastDelay(calls).value <= q && Asks(s, i, LastDelay(calls).value)
  {
    hide Inv, AllExact, Serves;
    var d := s.mux.list[i];
    DriverOfSystem(s, i);
    var c, k :| 0 <= c < |s.groups| && AttachedTo(s, c, i) && 0 <= k < NUMSENSORS
                && k in s.groups[c].mask && s.groups[c].requests[k] == q;
    var j :| 0 <= j < d.nr && d.slots[j].api == Some(c);
    ServedSlot(s, c, i, j);
    assert 0 <= d.slots[j].rate <= q;
    assert Rate(d) != NO_RATE && Rate(d) <= q;
    var j' :| 0 <= j' < d.nr && d.slots[j'].rate == Rate(d);
    SlotHasClient(s.mux, i, j');
    var c' := d.slots[j'].api.value;
    ServedSlot(s, c', i, j');
    var k' :| 0 <= k' < NUMSENSORS && k' in s.groups[c'].mask && s.groups[c'].requests[k'] == Rate(d);
    assert AttachedTo(s, c', i);
    assert Asks(s, i, Rate(d));
  }

  lemma EnabledIffSensorEnabled(s: System, i: nat)
    requires SystemInv(s) && i < |s.mux.list|
    ensures LastEnable(s.mux.list[i].calls) <==>
            exists c :: 0 <= c < |s.groups| && AttachedTo(s, c, i) && s.groups[c].mask != {}
  {
    hide Inv, AllExact, Serves;
    var d := s.mux.list[i];
    DriverOfSystem(s, i);
    if Has(d, ACTIVE) {
      var j :| 0 <= j < d.nr && ACTIVE in d.slots[j].status;
      SlotHasClient(s.mux, i, j);
      ServedSlot(s, d.slots[j].api.value, i, j);
      assert AttachedTo(s, d.slots[j].api.value, i);
    }
    if c :| 0 <= c < |s.groups| && AttachedTo(s, c, i) && s.groups[c].mask != {} {
      var j :| 0 <= j < d.nr && d.slots[j].api == Some(c);
      ServedSlot(s, c, i, j);
    }
  }

  /** Main result: in every run of permitted steps, a driver that some enabled sensor asks for a rate runs at the
    smallest delay any of them asks for, and it is enabled exactly when a sensor of an attached group is. */
  lemma DriverServesFastestSensor(states: seq<System>, steps: seq<Step>, answers: Answers, n: nat, i: nat)
    requires IsSystemRun(states, steps, answers) && n <= |steps| && i < |states[n].mux.list|
    ensures var s := states[n];
            var calls := s.mux.list[i].calls;
            && (forall q :: Asks(s, i, q) ==>
                  LastDelay(calls).Some? && LastDelay(calls).value <= q && Asks(s, i, LastDelay(calls).value))
            && (LastEnable(calls) <==> exists c :: 0 <= c < |s.groups| && AttachedTo(s, c, i) && s.groups[c].mask != {})
  {
    hide IsSystemRun, Inv;
    SystemRunKeepsInv(states, steps, answers, n);
    forall q | Asks(states[n], i, q)
      ensures LastDelay(states[n].mux.list[i].calls).Some? && LastDelay(states[n].mux.list[i].calls).value <= q
      ensures Asks(states[n], i, LastDelay(states[n].mux.list[i].calls).value)
    {
      FastestRequestReachesDriver(states[n], i, q);
    }
    EnabledIffSensorEnabled(states[n], i);
  }

  /** Enabling a sensor recomputes nothing. A slot of the client that asked for the group's fastest request still does,
    if and only if the sensor was enabled already, has no request stored, or one that is not faster than what the
    group asks for. */
  lemma EnableKeepsRateIff(mux: State, c: nat, g: Group, sensor: nat, i: nat, j: nat)
    requires Inv(mux) && c < |mux.descs| && sensor < NUMSENSORS && SlotsServe(mux, c, g)
    requires i < |mux.list| && j < mux.list[i].nr && mux.list[i].slots[j].api == Some(c)
    ensures var (mux', g') := Enable(mux, c, g, sensor);
            && |mux'.list| == |mux.list| && mux'.list[i].nr == mux.list[i].nr
            && (mux'.list[i].slots[j].rate == Effective(g') <==>
                  || sensor in g.mask
                  || g.requests[sensor] == UNUSED
                  || (Effective(g) != UNUSED && Effective(g) <= g.requests[sensor]))
  {
    EnableChangesFastestIff(g, sensor);
    hide Inv, Operate, Effective;
    SameListLength(mux, c, OpActivate(true));
    SameNr(mux, c, OpActivate(true), i);
    OperateChangesOwnSlots(mux, c, OpActivate(true), i, j);
  }

  lemma EnableChangesFastestIff(g: Group, sensor: nat)
    requires sensor < NUMSENSORS
    ensures Effective(g.(mask := g.mask + {sensor})) == Effective(g) <==>
            || sensor in g.mask
            || g.requests[sensor] == UNUSED
            || (Effective(g) != UNUSED && Effective(g) <= g.requests[sensor])
  {
    if sensor in g.mask {
      assert g.mask + {sensor} == g.mask;
    } else {
      var mask := g.mask + {sensor};
      assert Fastest(mask, g.requests, 0) == Fastest(g.mask, g.requests, 0) == UNUSED;
      assert forall k :: k != sensor ==> (k in mask <==> k in g.mask);
      assert Fastest(g.mask, g.requests, 1) == if 0 in g.mask then g.requests[0] else UNUSED;
      assert Fastest(mask, g.requests, 1) == if 0 in mask then g.requests[0] else UNUSED;
    }
  }

  /** A delay requested while the whole group is disabled is lost: after enabling the sensor, the client still asks
    for no rate, although the group's fastest request is that delay. */
  lemma RequestBeforeEnableIsLost(mux: State, c: nat, sensor: nat, ns: int64, i: nat, j: nat)
    requires Inv(mux) && c < |mux.descs| && sensor < NUMSENSORS && ns >= 0
    requires Serves(mux, c, Group({}, [UNUSED, UNUSED], true))
    requires i < |mux.list| && j < mux.list[i].nr && mux.list[i].slots[j].api == Some(c)
    ensures var (mux1, g1) := Delay(mux, c, Group({}, [UNUSED, UNUSED], true), sensor, ns);
            && Inv(mux1) && c < |mux1.descs|
            && var (mux2, g2) := Enable(mux1, c, g1, sensor);
            && |mux2.list| == |mux.list| && mux2.list[i].nr == mux.list[i].nr
            && Effective(g2) == ns
            && mux2.list[i].slots[j].rate == NO_RATE
  {
    var g := Group({}, [UNUSED, UNUSED], true);
    var g1 := g.(requests := g.requests[sensor := ns]);
    EmptyMaskIsSlow(g1);
    var op := OpSetDelay(NO_RATE);
    var mux1 := Operate(mux, c, op);
    hide Inv, Operate;
    OperateKeepsInv(mux, c, op);
    SameListLength(mux, c, op);
    SameNr(mux, c, op, i);
    OperateChangesOwnSlots(mux, c, op, i, j);
    SameListLength(mux1, c, OpActivate(true));
    SameNr(mux1, c, OpActivate(true), i);
    OperateChangesOwnSlots(mux1, c, OpActivate(true), i, j);
  }
}
