/** The sensor multiplexer (sensors_wrapper.c): many clients share a few drivers. A driver is initialised once, kept
  active while some client needs it, and run at the fastest rate asked for. */
module Multiplexer {
  import opened Options

  const MAX_SENSOR_CONNECTIONS := 4
  const MAX_DRIVERS := 16
  const NO_RATE: int64 := -1
  /** What the match table of a client holds behind the types it wants; no sensor type. */
  const NO_TYPE := 0

  type int64 = x: int | -0x8000_0000_0000_0000 <= x < 0x8000_0000_0000_0000

  /** The C conversion of a 64-bit integer to unsigned. */
  function Unsigned(x: int64): int {
    if x < 0 then x + 0x1_0000_0000_0000_0000 else x
  }

  /** The status bits of a client slot. */
  datatype Flag = CLOSE | INIT | ACTIVE

  /** A call to a driver; init records the value it returned. */
  datatype Call = CallInit(rv: int) | CallActivate(enable: bool) | CallSetDelay(ns: int64) | CallClose

  /** A slot of a driver: the client attached to it (None for a null pointer), its status bits and its rate. */
  datatype Slot = Slot(api: Option<nat>, status: set<Flag>, rate: int64)

  const PRISTINE: Slot := Slot(None, {}, NO_RATE)

  /** A driver: its sensor descriptor and type, its table of client slots of which nr are in use, and the calls
    made to it so far. */
  datatype RawDriver = Driver(sensor: nat, kind: int, slots: seq<Slot>, nr: nat, calls: seq<Call>)
  type Driver = d: RawDriver | |d.slots| == MAX_SENSOR_CONNECTIONS && d.nr <= MAX_SENSOR_CONNECTIONS
    witness Driver(0, 0, [PRISTINE, PRISTINE, PRISTINE, PRISTINE], 0, [])

  /** Where a client is attached: the index of the driver and of the slot. */
  datatype Link = Link(sensor: nat, client: nat)

  /** A client: the sensor types it wants, in order, its links so far, and whether it has a data function. */
  datatype Desc = Desc(wanted: seq<int>, links: seq<Link>, listens: bool)

  /** The driver list and the clients. */
  datatype State = State(list: seq<Driver>, descs: seq<Desc>)

  /** What a driver returns: its index and the number of calls made to it before determine the value. */
  type Answers = (nat, nat) -> int

  // ---- the list helpers, as functions of one driver ----

  /** The number of slots in use, up to slot n, that carry a flag. */
  function Count(d: Driver, flag: Flag, n: nat): nat
    requires n <= d.nr
  {
    if n == 0 then 0 else Count(d, flag, n - 1) + if flag in d.slots[n - 1].status then 1 else 0
  }

  predicate Has(d: Driver, flag: Flag) {
    exists j :: 0 <= j < d.nr && flag in d.slots[j].status
  }

  /** The least non-negative rate requested, or NO_RATE. */
  function MinRate(d: Driver, n: nat): (r: int64)
    requires n <= d.nr
    ensures r == NO_RATE <==> forall j :: 0 <= j < n ==> d.slots[j].rate < 0
    ensures r != NO_RATE ==> exists j :: 0 <= j < n && d.slots[j].rate == r
    ensures r != NO_RATE ==> r >= 0 && forall j :: 0 <= j < n && d.slots[j].rate >= 0 ==> r <= d.slots[j].rate
  {
    if n == 0 then NO_RATE else
    var r := MinRate(d, n - 1);
    var q := d.slots[n - 1].rate;
    if q >= 0 && (r == NO_RATE || q < r) then q else r
  }

  function Rate(d: Driver): int64 {
    MinRate(d, d.nr)
  }

  lemma {:induction false} CountIsPositiveIffHas(d: Driver, flag: Flag, n: nat)
    requires n <= d.nr
    ensures Count(d, flag, n) > 0 <==> exists j :: 0 <= j < n && flag in d.slots[j].status
  {
    if n == 0 {
    } else {
      CountIsPositiveIffHas(d, flag, n - 1);
    }
  }

  function WithSlot(d: Driver, client: nat, slot: Slot): Driver
    requires client < MAX_SENSOR_CONNECTIONS
  {
    d.(slots := d.slots[client := slot])
  }

  function Called(d: Driver, c: Call): Driver {
    d.(calls := d.calls + [c])
  }

  // ---- the effect of each operation on one driver ----

  /** A client gives up being active and its rate; the driver slows down if others still ask for a rate. */
  function WithdrawSlot(d: Driver, client: nat): Driver
    requires client < MAX_SENSOR_CONNECTIONS
  {
    var s := d.slots[client];
    var d' := WithSlot(d, client, s.(status := s.status - {ACTIVE}, rate := NO_RATE));
    if Rate(d') != NO_RATE && Rate(d) != Rate(d') then Called(d', CallSetDelay(Rate(d'))) else d'
  }

  lemma WithdrawCallsAtMostOnce(d: Driver, client: nat)
    requires client < MAX_SENSOR_CONNECTIONS
    ensures |d.calls| <= |WithdrawSlot(d, client).calls| <= |d.calls| + 1
  {
  }

  /** One round of the loop of `sensors_wrapper_activate`. */
  function ActivateSlot(d: Driver, client: nat, enable: bool): Driver
    requires client < MAX_SENSOR_CONNECTIONS
  {
    if enable then
      var s := d.slots[client];
      var d' := WithSlot(d, client, s.(status := s.status + {ACTIVE}));
      if Has(d, ACTIVE) then d' else Called(d', CallActivate(true))
    else
      var d' := WithdrawSlot(d, client);
      if Has(d', ACTIVE) then d' else Called(d', CallActivate(false))
  }

  /** One round of the loop of `sensors_wrapper_set_delay`. */
  function DelaySlot(d: Driver, client: nat, ns: int64): Driver
    requires client < MAX_SENSOR_CONNECTIONS
  {
    var d' := WithSlot(d, client, d.slots[client].(rate := ns));
    if Rate(d) != Rate(d') then Called(d', CallSetDelay(Rate(d'))) else d'
  }

  /** One round of the loop of `sensors_wrapper_close`. */
  function CloseSlot(d: Driver, client: nat): Driver
    requires client < MAX_SENSOR_CONNECTIONS
  {
    var s := d.slots[client];
    var d' := WithSlot(d, client, s.(status := s.status + {CLOSE}, rate := NO_RATE));
    if Count(d', CLOSE, d'.nr) == d'.nr then Called(d', CallClose) else d'
  }

  datatype Operation = OpActivate(enable: bool) | OpSetDelay(ns: int64) | OpClose

  function OnSlot(d: Driver, client: nat, op: Operation): Driver
    requires client < MAX_SENSOR_CONNECTIONS
  {
    match op
    case OpActivate(enable) => ActivateSlot(d, client, enable)
    case OpSetDelay(ns) => DelaySlot(d, client, ns)
    case OpClose => CloseSlot(d, client)
  }

  ghost predicate LinksValid(list: seq<Driver>, links: seq<Link>) {
    forall k :: 0 <= k < |links| ==> links[k].sensor < |list| && links[k].client < MAX_SENSOR_CONNECTIONS
  }

  /** The drivers after an operation went through the first n links of a client. */
  ghost function OnLinks(list: seq<Driver>, links: seq<Link>, n: nat, op: Operation): (r: seq<Driver>)
    requires n <= |links| && LinksValid(list, links)
    ensures |r| == |list|
  {
    if n == 0 then list else
    var l := OnLinks(list, links, n - 1, op);
    var k := links[n - 1];
    l[k.sensor := OnSlot(l[k.sensor], k.client, op)]
  }

  /** The value returned: that of the last driver call made, or 0. */
  ghost function ReturnCode(list: seq<Driver>, links: seq<Link>, n: nat, op: Operation, answers: Answers): int
    requires n <= |links| && LinksValid(list, links)
  {
    if n == 0 then 0 else
    var k := links[n - 1];
    var before := OnLinks(list, links, n - 1, op)[k.sensor];
    var after := OnSlot(before, k.client, op);
    if |after.calls| > |before.calls| then answers(k.sensor, |after.calls| - 1)
    else ReturnCode(list, links, n - 1, op, answers)
  }

  // ---- init ----

  /** A new client in the next free slot. */
  function AttachSlot(d: Driver, client: nat): Driver
    requires d.nr < MAX_SENSOR_CONNECTIONS
  {
    var s := d.slots[d.nr];
    WithSlot(d, d.nr, s.(api := Some(client), status := s.status + {INIT})).(nr := d.nr + 1)
  }

  datatype Picked = Picked(list: seq<Driver>, found: Option<nat>, err: int)

  /** One scan for a driver of a type: the first that is already initialised, or initialises now. */
  function Pick(list: seq<Driver>, kind: int, i: nat, err: int, answers: Answers): (p: Picked)
    requires i <= |list|
    ensures |p.list| == |list|
    ensures p.found.Some? ==> i <= p.found.value < |list|
    decreases |list| - i
  {
    if i == |list| then Picked(list, None, err) else
    if list[i].kind != kind then Pick(list, kind, i + 1, err, answers) else
    if Has(list[i], INIT) then Picked(list, Some(i), err) else
    var rv := answers(i, |list[i].calls|);
    var tried := list[i := Called(list[i], CallInit(rv))];
    if rv < 0 then Pick(tried, kind, i + 1, rv, answers) else Picked(tried, Some(i), err)
  }

  lemma {:induction false} PickKeepsShape(list: seq<Driver>, kind: int, i: nat, err: int, answers: Answers)
    requires i <= |list|
    ensures var p := Pick(list, kind, i, err, answers);
            && (forall m :: 0 <= m < |list| ==> p.list[m] == list[m].(calls := p.list[m].calls))
            && (p.found.Some? ==> list[p.found.value].kind == kind)
    decreases |list| - i
  {
    if i == |list| {
    } else {
      var rv := answers(i, |list[i].calls|);
      PickKeepsShape(list, kind, i + 1, err, answers);
      PickKeepsShape(list[i := Called(list[i], CallInit(rv))], kind, i + 1, rv, answers);
    }
  }

  datatype Initialised = Initialised(list: seq<Driver>, links: seq<Link>, err: int)

  /** The type a client with n matches looks for next. */
  function WantedType(wanted: seq<int>, n: nat): int {
    if n < |wanted| then wanted[n] else NO_TYPE
  }

  /** Every driver that init attaches the client to has a slot left for it; the code relies on this. When the client has
    all its matches, the table has an entry behind them and nothing is attached. */
  ghost predicate Room(
      list: seq<Driver>, wanted: seq<int>, links: seq<Link>, client: nat, err: int, answers: Answers)
    decreases |wanted| - |links|
  {
    if |links| >= |wanted| then
      |links| < MAX_SENSOR_CONNECTIONS && forall i :: 0 <= i < |list| ==> list[i].kind != NO_TYPE
    else
    var p := Pick(list, wanted[|links|], 0, err, answers);
    p.found == None ||
    var i := p.found.value;
    && p.list[i].nr < MAX_SENSOR_CONNECTIONS
    && var links' := links + [Link(i, p.list[i].nr)];
       (|links'| != |wanted| ==>
          Room(p.list[i := AttachSlot(p.list[i], client)], wanted, links', client, p.err, answers))
  }

  /** `sensors_wrapper_init`: one scan per wanted type. */
  ghost function InitLinks(
      list: seq<Driver>, wanted: seq<int>, links: seq<Link>, client: nat, err: int, answers: Answers): Initialised
    requires Room(list, wanted, links, client, err, answers)
    decreases |wanted| - |links|
  {
    if |links| >= |wanted| then Initialised(list, links, err) else
    var p := Pick(list, wanted[|links|], 0, err, answers);
    match p.found
    case None => Initialised(p.list, links, p.err)
    case Some(i) =>
      var list' := p.list[i := AttachSlot(p.list[i], client)];
      var links' := links + [Link(i, p.list[i].nr)];
      if |links'| != |wanted| then InitLinks(list', wanted, links', client, p.err, answers)
      else Initialised(list', links', 0)
  }

  /** How a scan of `sensors_wrapper_init` continues. */
  lemma InitContinues(
      base: seq<Driver>, wanted: seq<int>, links: seq<Link>, client: nat, err: int, answers: Answers, p: Picked)
    requires |links| < |wanted| && Room(base, wanted, links, client, err, answers)
    requires p == Pick(base, wanted[|links|], 0, err, answers)
    ensures p.found == None ==>
              InitLinks(base, wanted, links, client, err, answers) == Initialised(p.list, links, p.err)
    ensures p.found.Some? ==>
              var i := p.found.value;
              var links' := links + [Link(i, p.list[i].nr)];
              && p.list[i].nr < MAX_SENSOR_CONNECTIONS
              && var list' := p.list[i := AttachSlot(p.list[i], client)];
                 if |links'| == |wanted| then
                   InitLinks(base, wanted, links, client, err, answers) == Initialised(list', links', 0)
                 else
                   && Room(list', wanted, links', client, p.err, answers)
                   && InitLinks(base, wanted, links, client, err, answers)
                      == InitLinks(list', wanted, links', client, p.err, answers)
  {
    hide Pick, AttachSlot;
  }

  // ---- data ----

  /** The clients that receive data from a driver, in slot order. */
  function Receivers(d: Driver, descs: seq<Desc>, n: nat): seq<nat>
    requires n <= d.nr
  {
    if n == 0 then [] else
    var s := d.slots[n - 1];
    var r := Receivers(d, descs, n - 1);
    if ACTIVE in s.status && s.api.Some? && s.api.value < |descs| && descs[s.api.value].listens then r + [s.api.value]
    else r
  }
}
