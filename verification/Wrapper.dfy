/** The operations of sensors_wrapper.c as loops over the global list, each run under the wrapper mutex. */
module Wrapper {
  import opened Options
  import opened Multiplexer
  import opened MultiplexerRuns

  class WrapperList {
    var list: seq<Driver>
    var descs: seq<Desc>
    const answers: Answers

    ghost function Contents(): State
      reads this
    {
      State(list, descs)
    }

    ghost predicate Valid()
      reads this
    {
      Inv(Contents())
    }

    constructor (descs: seq<Desc>, answers: Answers)
      requires forall c :: 0 <= c < |descs| ==> descs[c].links == []
      ensures Valid() && list == [] && this.descs == descs && this.answers == answers
    {
      this.list := [];
      this.descs := descs;
      this.answers := answers;
      new;
      StartHasInv(Contents());
    }

    /** `list_get_status`. */
    method GetStatus(sensor: nat, pattern: Flag) returns (found: nat)
      requires sensor < |list|
      ensures found == Count(list[sensor], pattern, list[sensor].nr)
      ensures found > 0 <==> Has(list[sensor], pattern)
    {
      found := 0;
      for j := 0 to list[sensor].nr
        invariant found == Count(list[sensor], pattern, j)
      {
        if pattern in list[sensor].slots[j].status {
          found := found + 1;
        }
      }
      CountIsPositiveIffHas(list[sensor], pattern, list[sensor].nr);
    }

    /** `list_get_rate`: the comparison is made on unsigned numbers, where NO_RATE is the largest. */
    method GetRate(sensor: nat) returns (rate: int64)
      requires sensor < |list|
      ensures rate == Rate(list[sensor])
    {
      rate := NO_RATE;
      for j := 0 to list[sensor].nr
        invariant rate == MinRate(list[sensor], j)
      {
        if list[sensor].slots[j].rate >= 0 && list[sensor].slots[j].rate < Unsigned(rate) {
          rate := list[sensor].slots[j].rate;
        }
      }
    }

    /** `list_set_status`, `list_clear_status`, `list_set_rate` and `list_set_api` store one slot. */
    method SetSlot(sensor: nat, client: nat, slot: Slot)
      requires sensor < |list| && client < MAX_SENSOR_CONNECTIONS
      modifies this`list
      ensures list == old(list)[sensor := WithSlot(old(list)[sensor], client, slot)]
    {
      list := list[sensor := list[sensor].(slots := list[sensor].slots[client := slot])];
    }

    /** A call through the driver's function table. */
    method CallDriver(sensor: nat, call: Call) returns (rv: int)
      requires sensor < |list|
      modifies this`list
      ensures list == old(list)[sensor := Called(old(list)[sensor], call)]
      ensures rv == answers(sensor, |old(list)[sensor].calls|)
    {
      rv := answers(sensor, |list[sensor].calls|);
      list := list[sensor := list[sensor].(calls := list[sensor].calls + [call])];
    }

    /** `sensors_wrapper_register`: the client table is cleared; a full list is left as it is. */
    method Register(sensor: nat, kind: int)
      requires Valid()
      modifies this`list
      ensures Valid() && Contents() == Apply(old(Contents()), Event.Register(sensor, kind), answers)
    {
      hide Inv;
      StepKeepsInv(Contents(), Event.Register(sensor, kind), answers);
      var slots: seq<Slot> := [];
      for i := 0 to MAX_SENSOR_CONNECTIONS
        invariant slots == seq(i, _ => PRISTINE)
      {
        slots := slots + [Slot(None, {}, NO_RATE)];
      }
      assert slots == FRESH_SLOTS;
      if |list| < MAX_DRIVERS {
        list := list + [Driver(sensor, kind, slots, 0, [])];
      }
    }

    /** The part of a round of `sensors_wrapper_activate` that withdraws the client's request. */
    method Withdraw(sensor: nat, client: nat, before: int) returns (rv: int)
      requires sensor < |list| && client < MAX_SENSOR_CONNECTIONS
      modifies this`list
      ensures list == old(list)[sensor := WithdrawSlot(old(list)[sensor], client)]
      ensures rv == if |list[sensor].calls| > |old(list)[sensor].calls|
                    then answers(sensor, |old(list)[sensor].calls|) else before
    {
      hide Rate;
      rv := before;
      var slot := list[sensor].slots[client];
      SetSlot(sensor, client, slot.(status := slot.status - {ACTIVE}));
      var oldRate := GetRate(sensor);
      RateIgnoresStatus(old(list)[sensor], client, slot.status - {ACTIVE});
      SetSlot(sensor, client, list[sensor].slots[client].(rate := NO_RATE));
      ghost var d, s := old(list)[sensor], old(list)[sensor].slots[client];
      assert list[sensor].slots == d.slots[client := s.(status := s.status - {ACTIVE}, rate := NO_RATE)];
      var newRate := GetRate(sensor);
      if newRate != NO_RATE && oldRate != newRate {
        rv := CallDriver(sensor, CallSetDelay(newRate));
      }
    }

    /** One round of the loop of `sensors_wrapper_activate`. */
    method ActivateOne(sensor: nat, client: nat, enable: bool, before: int) returns (rv: int)
      requires sensor < |list| && client < MAX_SENSOR_CONNECTIONS
      modifies this`list
      ensures list == old(list)[sensor := ActivateSlot(old(list)[sensor], client, enable)]
      ensures rv == if |list[sensor].calls| > |old(list)[sensor].calls|
                    then answers(sensor, |list[sensor].calls| - 1) else before
    {
      hide Has, WithdrawSlot;
      WithdrawCallsAtMostOnce(list[sensor], client);
      rv := before;
      if !enable {
        rv := Withdraw(sensor, client, rv);
      }
      var active := GetStatus(sensor, ACTIVE);
      if enable {
        var slot := list[sensor].slots[client];
        SetSlot(sensor, client, slot.(status := slot.status + {ACTIVE}));
      }
      if active == 0 {
        rv := CallDriver(sensor, CallActivate(enable));
      }
    }

    /** `sensors_wrapper_activate`. */
    method Activate(id: nat, enable: bool) returns (rv: int)
      requires Valid() && id < |descs|
      modifies this`list
      ensures Valid() && Contents() == Apply(old(Contents()), Event.Activate(id, enable), answers)
      ensures rv == Answered(old(Contents()), id, OpActivate(enable), answers)
    {
      hide ActivateSlot, Inv;
      StepKeepsInv(Contents(), Event.Activate(id, enable), answers);
      ValidLinks(Contents(), id);
      rv := 0;
      var links := descs[id].links;
      for i := 0 to |links|
        invariant list == OnLinks(old(list), links, i, OpActivate(enable))
        invariant rv == ReturnCode(old(list), links, i, OpActivate(enable), answers)
      {
        rv := ActivateOne(links[i].sensor, links[i].client, enable, rv);
      }
    }

    /** One round of the loop of `sensors_wrapper_set_delay`. */
    method DelayOne(sensor: nat, client: nat, ns: int64, before: int) returns (rv: int)
      requires sensor < |list| && client < MAX_SENSOR_CONNECTIONS
      modifies this`list
      ensures list == old(list)[sensor := DelaySlot(old(list)[sensor], client, ns)]
      ensures rv == if |list[sensor].calls| > |old(list)[sensor].calls|
                    then answers(sensor, |list[sensor].calls| - 1) else before
    {
      hide Rate;
      rv := before;
      var oldRate := GetRate(sensor);
      SetSlot(sensor, client, list[sensor].slots[client].(rate := ns));
      var newRate := GetRate(sensor);
      if oldRate != newRate {
        rv := CallDriver(sensor, CallSetDelay(newRate));
      }
    }

    /** `sensors_wrapper_set_delay`. */
    method SetDelay(id: nat, ns: int64) returns (rv: int)
      requires Valid() && id < |descs|
      modifies this`list
      ensures Valid() && Contents() == Apply(old(Contents()), Event.SetDelay(id, ns), answers)
      ensures rv == Answered(old(Contents()), id, OpSetDelay(ns), answers)
    {
      hide DelaySlot, Inv;
      StepKeepsInv(Contents(), Event.SetDelay(id, ns), answers);
      ValidLinks(Contents(), id);
      rv := 0;
      var links := descs[id].links;
      for i := 0 to |links|
        invariant list == OnLinks(old(list), links, i, OpSetDelay(ns))
        invariant rv == ReturnCode(old(list), links, i, OpSetDelay(ns), answers)
      {
        rv := DelayOne(links[i].sensor, links[i].client, ns, rv);
      }
    }

    /** One round of the loop of `sensors_wrapper_close`. */
    method CloseOne(sensor: nat, client: nat)
      requires sensor < |list| && client < MAX_SENSOR_CONNECTIONS
      modifies this`list
      ensures list == old(list)[sensor := CloseSlot(old(list)[sensor], client)]
    {
      hide Has, Count;
      var slot := list[sensor].slots[client];
      SetSlot(sensor, client, slot.(status := slot.status + {CLOSE}, rate := NO_RATE));
      var close := GetStatus(sensor, CLOSE);
      if close == list[sensor].nr {
        var _ := CallDriver(sensor, CallClose);
      }
    }

    /** `sensors_wrapper_close`. */
    method Close(id: nat)
      requires Valid() && id < |descs|
      modifies this`list
      ensures Valid() && Contents() == Apply(old(Contents()), Event.Close(id), answers)
    {
      hide CloseSlot, Inv;
      StepKeepsInv(Contents(), Event.Close(id), answers);
      ValidLinks(Contents(), id);
      var links := descs[id].links;
      for i := 0 to |links|
        invariant list == OnLinks(old(list), links, i, OpClose)
      {
        CloseOne(links[i].sensor, links[i].client);
      }
    }

    /** The attempt to initialise a matching driver, skipped when a client already has it initialised. */
    method TryInit(sensor: nat) returns (rv: int)
      requires sensor < |list|
      modifies this`list
      ensures rv == if Has(old(list)[sensor], INIT) then 0 else answers(sensor, |old(list)[sensor].calls|)
      ensures list == if Has(old(list)[sensor], INIT) then old(list)
                      else old(list)[sensor := Called(old(list)[sensor], CallInit(rv))]
    {
      hide Has;
      rv := 0;
      var init := GetStatus(sensor, INIT);
      if init == 0 {
        rv := CallDriver(sensor, CallInit(answers(sensor, |list[sensor].calls|)));
      }
    }

    /** Attaching a client to a driver. */
    method Attach(id: nat, sensor: nat)
      requires sensor < |list| && list[sensor].nr < MAX_SENSOR_CONNECTIONS && id < |descs|
      modifies this`list, this`descs
      ensures list == old(list)[sensor := AttachSlot(old(list)[sensor], id)]
      ensures var d := old(descs)[id];
              descs == old(descs)[id := d.(links := d.links + [Link(sensor, old(list)[sensor].nr)])]
    {
      var client := list[sensor].nr;
      descs := descs[id := descs[id].(links := descs[id].links + [Link(sensor, client)])];
      var slot := list[sensor].slots[client];
      SetSlot(sensor, client, slot.(status := slot.status + {INIT}));
      slot := list[sensor].slots[client];
      SetSlot(sensor, client, slot.(api := Some(id)));
      ghost var d := old(list)[sensor];
      ghost var first := d.slots[client];
      assert list[sensor].slots == d.slots[client := first.(api := Some(id), status := first.status + {INIT})];
      list := list[sensor := list[sensor].(nr := client + 1)];
    }

    /** `sensors_wrapper_init`. */
    method Init(id: nat) returns (err: int)
      requires Valid() && id < |descs|
      requires Room(list, descs[id].wanted, descs[id].links, id, -1, answers)
      modifies this`list, this`descs
      ensures Valid() && Contents() == Apply(old(Contents()), Event.Init(id), answers)
      ensures err == InitLinks(old(list), old(descs)[id].wanted, old(descs)[id].links, id, -1, answers).err
      ensures |descs| == |old(descs)|
      ensures err == 0 <==> |old(descs)[id].links| < |descs[id].wanted| && |descs[id].links| == |descs[id].wanted|
    {
      hide Inv, AllExact, Room, InitLinks;
      InitKeepsInv(Contents(), id, -1, answers);
      err := ScanForMatches(id);
    }

    /** The loop of `sensors_wrapper_init`: the scan restarts from the first driver after every match. */
    method ScanForMatches(id: nat) returns (err: int)
      requires id < |descs| && |descs[id].links| <= |descs[id].wanted|
      requires Room(list, descs[id].wanted, descs[id].links, id, -1, answers)
      modifies this`list, this`descs
      ensures var r := InitLinks(old(list), old(descs)[id].wanted, old(descs)[id].links, id, -1, answers);
              list == r.list && err == r.err && descs == old(descs)[id := old(descs)[id].(links := r.links)]
    {
      hide Has, AttachSlot, Room, InitLinks;
      err := -1;
      var i := 0;
      var wanted := descs[id].wanted;
      var done := false;
      ghost var base, baseErr := list, err;
      ghost var complete := |descs[id].links| == |wanted|;
      if complete {
        RepeatedInit(list, wanted, descs[id].links, id, err, answers);
      }
      while i < |list| && !done
        invariant i <= |list| && id < |descs| && descs[id].wanted == wanted
        invariant descs == old(descs)[id := old(descs)[id].(links := descs[id].links)]
        invariant complete ==> !done && err == -1 && list == old(list) && descs == old(descs)
        invariant !complete && !done ==>
          |descs[id].links| < |wanted| && Room(base, wanted, descs[id].links, id, baseErr, answers)
        invariant !complete && !done ==>
          InitLinks(old(list), wanted, old(descs)[id].links, id, -1, answers)
            == InitLinks(base, wanted, descs[id].links, id, baseErr, answers)
        invariant !complete && !done ==>
          Pick(base, wanted[|descs[id].links|], 0, baseErr, answers)
            == Pick(list, wanted[|descs[id].links|], i, err, answers)
        invariant done ==>
          InitLinks(old(list), wanted, old(descs)[id].links, id, -1, answers)
            == Initialised(list, descs[id].links, err)
        decreases if done then 0 else |wanted| - |descs[id].links|, |list| - i
      {
        ghost var links := descs[id].links;
        if list[i].kind == WantedType(wanted, |descs[id].links|) {
          var rv := TryInit(i);
          if rv < 0 {
            err := rv;
            i := i + 1;
          } else {
            InitContinues(base, wanted, links, id, baseErr, answers, Picked(list, Some(i), err));
            Attach(id, i);
            if |descs[id].links| != |wanted| {
              i := 0;
              base, baseErr := list, err;
            } else {
              err := 0;
              done := true;
            }
          }
        } else {
          i := i + 1;
        }
      }
      if !complete && !done {
        InitContinues(base, wanted, descs[id].links, id, baseErr, answers, Picked(list, None, err));
      }
    }

    /** `sensors_wrapper_data`: the first driver with this sensor passes the data to its active clients. */
    method Data(sensor: nat) returns (receivers: seq<nat>)
      ensures (forall i :: 0 <= i < |list| ==> list[i].sensor != sensor) ==> receivers == []
      ensures forall i :: 0 <= i < |list| && list[i].sensor == sensor
                          && (forall m :: 0 <= m < i ==> list[m].sensor != sensor)
                ==> receivers == Receivers(list[i], descs, list[i].nr)
    {
      receivers := [];
      var i := 0;
      while i < |list| && sensor != list[i].sensor
        invariant i <= |list|
        invariant forall m :: 0 <= m < i ==> list[m].sensor != sensor
      {
        i := i + 1;
      }
      if i < |list| {
        for j := 0 to list[i].nr
          invariant receivers == Receivers(list[i], descs, j)
        {
          var s := list[i].slots[j];
          if ACTIVE in s.status {
            if s.api.Some? && s.api.value < |descs| && descs[s.api.value].listens {
              receivers := receivers + [s.api.value];
            }
          }
        }
      }
    }
  }

  lemma ValidLinks(s: State, c: nat)
    requires Inv(s) && c < |s.descs|
    ensures LinksValid(s.list, s.descs[c].links)
  {
    OwnedLinksAreValid(s, c);
  }

  lemma {:induction false} RateIgnoresStatusUpTo(d: Driver, client: nat, status: set<Flag>, n: nat)
    requires client < MAX_SENSOR_CONNECTIONS && n <= d.nr
    ensures MinRate(WithSlot(d, client, d.slots[client].(status := status)), n) == MinRate(d, n)
  {
    if n == 0 {
    } else {
      RateIgnoresStatusUpTo(d, client, status, n - 1);
    }
  }

  lemma RateIgnoresStatus(d: Driver, client: nat, status: set<Flag>)
    requires client < MAX_SENSOR_CONNECTIONS
    ensures Rate(WithSlot(d, client, d.slots[client].(status := status))) == Rate(d)
  {
    RateIgnoresStatusUpTo(d, client, status, d.nr);
  }
}
