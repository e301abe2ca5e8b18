/** What the drivers are told in every run of the multiplexer, in terms of the events of the run. */
module MultiplexerHistory {
  import opened Options
  import opened Multiplexer
  import opened MultiplexerRuns

  /** What a client asks of a driver: to be active, a rate, and whether it has closed it. */
  datatype Ask = Ask(on: bool, rate: int64, closed: bool)

  const SILENT: Ask := Ask(false, NO_RATE, false)

  ghost predicate SlotInUse(s: State, i: nat, j: nat) {
    i < |s.list| && j < s.list[i].nr
  }

  /** Slot j of driver i belongs to client c. */
  ghost predicate Belongs(s: State, i: nat, j: nat, c: nat) {
    SlotInUse(s, i, j) && s.list[i].slots[j].api == Some(c)
  }

  /** Client c has a slot on driver i. */
  ghost predicate Attached(s: State, i: nat, c: nat) {
    exists j: nat :: Belongs(s, i, j, c)
  }

  /** What the first n events of a run asked of driver i through slot j, since a client was attached there. */
  ghost function AskOf(states: seq<State>, events: seq<Event>, i: nat, j: nat, n: nat): Ask
    requires |states| == |events| + 1 && n <= |events|
  {
    if n == 0 || !SlotInUse(states[n - 1], i, j) then SILENT else
    var a := AskOf(states, events, i, j, n - 1);
    match events[n - 1]
    case Activate(c, on) =>
      if !Belongs(states[n - 1], i, j, c) then a else if on then a.(on := true) else Ask(false, NO_RATE, a.closed)
    case SetDelay(c, ns) => if Belongs(states[n - 1], i, j, c) then a.(rate := ns) else a
    case Close(c) => if Belongs(states[n - 1], i, j, c) then Ask(a.on, NO_RATE, true) else a
    case _ => a
  }

  /** A slot holds what was asked through it. */
  ghost predicate Holds(s: Slot, a: Ask) {
    && s.api.Some? && s.rate == a.rate
    && (ACTIVE in s.status <==> a.on) && (CLOSE in s.status <==> a.closed)
  }

  // ---- the slots ----

  /** The effect of one event on a slot that is in use afterwards. */
  lemma SlotAfterEvent(s: State, e: Event, answers: Answers, i: nat, j: nat)
    requires Inv(s) && Allowed(s, e, answers)
    requires var s' := Apply(s, e, answers); i < |s'.list| && j < s'.list[i].nr
    ensures var slot' := Apply(s, e, answers).list[i].slots[j];
            if !SlotInUse(s, i, j) then exists c :: slot' == Slot(Some(c), {INIT}, NO_RATE) else
            var slot := s.list[i].slots[j];
            match e
            case Activate(c, on) => slot' == if slot.api == Some(c) then SlotAfter(slot, OpActivate(on)) else slot
            case SetDelay(c, ns) => slot' == if slot.api == Some(c) then SlotAfter(slot, OpSetDelay(ns)) else slot
            case Close(c) => slot' == if slot.api == Some(c) then SlotAfter(slot, OpClose) else slot
            case _ => slot' == slot
  {
    hide Inv, Operate, InitLinks, SlotAfter;
    match e
    case Register(sensor, kind) =>
    case Init(c) =>
      InitKeepsLength(s, c, answers);
      InitAddsQuietSlots(s, c, -1, answers, i, j);
    case Activate(c, on) => SlotAfterOperation(s, c, OpActivate(on), i, j);
    case SetDelay(c, ns) => SlotAfterOperation(s, c, OpSetDelay(ns), i, j);
    case Close(c) => SlotAfterOperation(s, c, OpClose, i, j);
  }

  lemma SlotAfterOperation(s: State, c: nat, op: Operation, i: nat, j: nat)
    requires Inv(s) && c < |s.descs| && i < |Operate(s, c, op).list| && j < Operate(s, c, op).list[i].nr
    ensures i < |s.list| && j < s.list[i].nr
    ensures Operate(s, c, op).list[i].slots[j]
         == if s.list[i].slots[j].api == Some(c) then SlotAfter(s.list[i].slots[j], op) else s.list[i].slots[j]
  {
    hide Inv, Operate, SlotAfter;
    SameListLength(s, c, op);
    SameNr(s, c, op, i);
    OperateChangesOwnSlots(s, c, op, i, j);
  }

  /** In every state of every run, a slot in use holds exactly what the events of the run asked through it. */
  lemma {:induction false} SlotHoldsAsk(
      states: seq<State>, events: seq<Event>, answers: Answers, n: nat, i: nat, j: nat)
    requires IsRun(states, events, answers) && n <= |events|
    requires SlotInUse(states[n], i, j)
    ensures |states| == |events| + 1 && Holds(states[n].list[i].slots[j], AskOf(states, events, i, j, n))
    decreases n
  {
    if n == 0 {
      assert false;
    } else {
      hide IsRun, Apply, Inv, Allowed, SlotAfter, Holds;
      RunStep(states, events, answers, n - 1);
      SlotAfterEvent(states[n - 1], events[n - 1], answers, i, j);
      if SlotInUse(states[n - 1], i, j) {
        SlotHoldsAsk(states, events, answers, n - 1, i, j);
        AskOfOperation(states[n - 1].list[i].slots[j], AskOf(states, events, i, j, n - 1));
      } else {
        NewSlotIsSilent();
      }
    }
  }

  lemma AskOfOperation(s: Slot, a: Ask)
    requires Holds(s, a)
    ensures Holds(SlotAfter(s, OpActivate(true)), a.(on := true))
    ensures Holds(SlotAfter(s, OpActivate(false)), Ask(false, NO_RATE, a.closed))
    ensures forall ns :: Holds(SlotAfter(s, OpSetDelay(ns)), a.(rate := ns))
    ensures Holds(SlotAfter(s, OpClose), Ask(a.on, NO_RATE, true))
  {
  }

  lemma NewSlotIsSilent()
    ensures forall c :: Holds(Slot(Some(c), {INIT}, NO_RATE), SILENT)
  {
  }

  // ---- the drivers ----

  /** Main result: in every run a driver was last enabled if and only if some client's events ask for it, and it was
    last told a rate that is not slower than any asked for; without close events, one that is asked for. */
  lemma DriverFollowsEvents(states: seq<State>, events: seq<Event>, answers: Answers, n: nat, i: nat)
    requires IsRun(states, events, answers) && n <= |events| && i < |states[n].list|
    ensures |states| == |events| + 1
    ensures var d := states[n].list[i];
            && (LastEnable(d.calls) <==> exists j: nat :: j < d.nr && AskOf(states, events, i, j, n).on)
            && (forall j: nat :: j < d.nr && AskOf(states, events, i, j, n).rate >= 0 ==>
                  LastDelay(d.calls).Some? && 0 <= LastDelay(d.calls).value <= AskOf(states, events, i, j, n).rate)
            && ((forall k :: 0 <= k < n ==> !events[k].Close?)
                && (exists j: nat :: j < d.nr && AskOf(states, events, i, j, n).rate >= 0) ==>
                  exists j: nat :: j < d.nr && Some(AskOf(states, events, i, j, n).rate) == LastDelay(d.calls))
  {
    hide IsRun, AskOf, Owned, SlotsOk, InitialisedOnce, NoDoubleEnable, LastEnable, LastDelay, Has;
    RunKeepsInv(states, events, answers, n);
    RunShape(states, events, answers);
    var d := states[n].list[i];
    assert DriverOk(d);
    forall j: nat | j < d.nr
      ensures Holds(d.slots[j], AskOf(states, events, i, j, n))
    {
      SlotHoldsAsk(states, events, answers, n, i, j);
    }
    assert (forall k :: 0 <= k < n ==> !events[k].Close?) ==> RateExact(d);
    ActiveIffAsked(states, events, d, i, n);
  }

  lemma ActiveIffAsked(states: seq<State>, events: seq<Event>, d: Driver, i: nat, n: nat)
    requires |states| == |events| + 1 && n <= |events|
    requires forall j: nat :: j < d.nr ==> Holds(d.slots[j], AskOf(states, events, i, j, n))
    ensures Has(d, ACTIVE) <==> exists j: nat :: j < d.nr && AskOf(states, events, i, j, n).on
  {
    hide AskOf;
    if Has(d, ACTIVE) {
      var j: nat :| j < d.nr && ACTIVE in d.slots[j].status;
      assert Holds(d.slots[j], AskOf(states, events, i, j, n));
      assert AskOf(states, events, i, j, n).on;
    }
    if j: nat :| j < d.nr && AskOf(states, events, i, j, n).on {
      assert Holds(d.slots[j], AskOf(states, events, i, j, n));
      assert ACTIVE in d.slots[j].status;
    }
  }

  lemma RunShape(states: seq<State>, events: seq<Event>, answers: Answers)
    requires IsRun(states, events, answers)
    ensures |states| == |events| + 1
  {
  }

  // ---- closing ----

  /** How often close was called. */
  function Closes(calls: seq<Call>): nat {
    if calls == [] then 0 else Closes(calls[..|calls| - 1]) + if calls[|calls| - 1] == CallClose then 1 else 0
  }

  lemma ClosesOfOneMore(calls: seq<Call>, c: Call)
    ensures Closes(calls + [c]) == Closes(calls) + if c == CallClose then 1 else 0
  {
    assert (calls + [c])[..|calls|] == calls;
  }

  /** All clients of a driver have closed it. */
  ghost predicate AllClosed(d: Driver) {
    forall j :: 0 <= j < d.nr ==> CLOSE in d.slots[j].status
  }

  lemma {:induction false} CountIsFullIff(d: Driver, flag: Flag, n: nat)
    requires n <= d.nr
    ensures Count(d, flag, n) <= n
    ensures Count(d, flag, n) == n <==> forall j :: 0 <= j < n ==> flag in d.slots[j].status
  {
    if n == 0 {
    } else {
      CountIsFullIff(d, flag, n - 1);
    }
  }

  lemma ClosesOfCloseSlot(d: Driver, client: nat)
    requires client < d.nr
    ensures var d' := CloseSlot(d, client);
            && d'.nr == d.nr
            && Closes(d'.calls) == Closes(d.calls) + (if AllClosed(d') then 1 else 0)
            && (AllClosed(d) ==> AllClosed(d'))
  {
    hide Count;
    ClosesOfOneMore(d.calls, CallClose);
    var s := d.slots[client];
    var d' := WithSlot(d, client, s.(status := s.status + {CLOSE}, rate := NO_RATE));
    CountIsFullIff(d', CLOSE, d'.nr);
  }

  lemma ClosesOfOtherOperation(d: Driver, client: nat, op: Operation)
    requires client < MAX_SENSOR_CONNECTIONS && !op.OpClose?
    ensures Closes(OnSlot(d, client, op).calls) == Closes(d.calls)
  {
    hide Closes, Has, Rate;
    var s := d.slots[client];
    match op
    case OpActivate(enable) =>
      var cleared := WithSlot(d, client, s.(status := s.status - {ACTIVE}, rate := NO_RATE));
      ClosesOfOneMore(d.calls, CallActivate(true));
      ClosesOfOneMore(d.calls, CallSetDelay(Rate(cleared)));
      ClosesOfOneMore(WithdrawSlot(d, client).calls, CallActivate(false));
    case OpSetDelay(ns) =>
      ClosesOfOneMore(d.calls, CallSetDelay(Rate(WithSlot(d, client, s.(rate := ns)))));
  }

  lemma {:induction false} ClosesOnLinks(list: seq<Driver>, links: seq<Link>, n: nat, op: Operation, i: nat)
    requires n <= |links| && InUse(list, links) && LinksValid(list, links) && i < |list|
    ensures var d := OnLinks(list, links, n, op)[i];
            && d.nr == list[i].nr
            && Closes(d.calls) >= Closes(list[i].calls)
            && (Closes(d.calls) > Closes(list[i].calls) <==>
                  op.OpClose? && (exists k :: 0 <= k < n && links[k].sensor == i) && AllClosed(d))
  {
    hide OnSlot, Closes, AllClosed;
    if n == 0 {
    } else {
      ClosesOnLinks(list, links, n - 1, op, i);
      var l := OnLinks(list, links, n - 1, op);
      var k := links[n - 1];
      if k.sensor == i {
        OperationKeepsShape(l[i], k.client, op);
        if op.OpClose? {
          ClosesOfCloseSlot(l[i], k.client);
          CloseIsCloseSlot(l[i], k.client);
        } else {
          ClosesOfOtherOperation(l[i], k.client, op);
        }
      }
    }
  }

  lemma CloseIsCloseSlot(d: Driver, client: nat)
    requires client < MAX_SENSOR_CONNECTIONS
    ensures OnSlot(d, client, OpClose) == CloseSlot(d, client)
  {
  }

  /** The links of a client lead to exactly the drivers that it is attached to. */
  lemma LinkedIffAttached(s: State, c: nat, i: nat)
    requires Owned(s) && c < |s.descs| && i < |s.list|
    ensures (exists k :: 0 <= k < |s.descs[c].links| && s.descs[c].links[k].sensor == i) <==> Attached(s, i, c)
  {
    var links := s.descs[c].links;
    if k :| 0 <= k < |links| && links[k].sensor == i {
      assert Backed(s, c, k);
      assert Belongs(s, i, links[k].client, c);
    }
    if Attached(s, i, c) {
      var j: nat :| Belongs(s, i, j, c);
      assert HasOwner(s, i, j);
      var b, k :| 0 <= b < |s.descs| && 0 <= k < |s.descs[b].links| && s.descs[b].links[k] == Link(i, j);
      assert Backed(s, b, k);
    }
  }

  lemma ClosesOfOperation(s: State, c: nat, op: Operation, i: nat)
    requires Inv(s) && c < |s.descs| && i < |s.list|
    ensures |Operate(s, c, op).list| == |s.list|
    ensures var d := Operate(s, c, op).list[i];
            && Closes(d.calls) >= Closes(s.list[i].calls)
            && (Closes(d.calls) > Closes(s.list[i].calls) <==> op.OpClose? && Attached(s, i, c) && AllClosed(d))
  {
    hide OnLinks, Closes, AllClosed, DriverOk;
    OwnedLinksAreValid(s, c);
    LinkedIffAttached(s, c, i);
    ClosesOnLinks(s.list, s.descs[c].links, |s.descs[c].links|, op, i);
  }

  /** Init calls no close. */
  lemma {:induction false} ClosesOfInit(s: State, c: nat, err: int, answers: Answers, i: nat)
    requires Inv(s) && c < |s.descs| && i < |s.list|
    requires Room(s.list, s.descs[c].wanted, s.descs[c].links, c, err, answers) && err < 0
    ensures var d := s.descs[c];
            var r := InitLinks(s.list, d.wanted, d.links, c, err, answers);
            |r.list| == |s.list| && Closes(r.list[i].calls) == Closes(s.list[i].calls)
    decreases |s.descs[c].wanted| - |s.descs[c].links|
  {
    hide Owned, DriverOk, RateExact, Pick, Room, Has, InitLinks, Closes, AttachSlot;
    var d := s.descs[c];
    MatchesAreWanted(s, c);
    if |d.links| == |d.wanted| {
      RepeatedInit(s.list, d.wanted, d.links, c, err, answers);
      return;
    }
    var p := Pick(s.list, d.wanted[|d.links|], 0, err, answers);
    InitContinues(s.list, d.wanted, d.links, c, err, answers, p);
    PickIsFirstUsable(s.list, d.wanted[|d.links|], 0, err, answers);
    ScanKeepsDrivers(s.list, d.wanted[|d.links|], err, answers, p);
    ClosesOfOneMore(s.list[i].calls, CallInit(answers(i, |s.list[i].calls|)));
    if p.found.Some? {
      var m := p.found.value;
      AttachKeepsDriver(s.list[m], p.list[m], answers(m, |s.list[m].calls|), c);
      AttachCallsNothing(p.list[m], c);
      OwnedAfterAttach(s, p.list, c, m);
      var links := d.links + [Link(m, p.list[m].nr)];
      if |links| != |d.wanted| {
        var s' := State(p.list[m := AttachSlot(p.list[m], c)], s.descs[c := d.(links := links)]);
        ClosesOfInit(s', c, p.err, answers, i);
      }
    }
  }

  lemma AttachCallsNothing(d: Driver, client: nat)
    requires d.nr < MAX_SENSOR_CONNECTIONS
    ensures AttachSlot(d, client).calls == d.calls
  {
  }

  /** Every client attached to driver i has closed it by event n. */
  ghost predicate AllAskedToClose(states: seq<State>, events: seq<Event>, i: nat, n: nat)
    requires |states| == |events| + 1 && n <= |events| && i < |states[n].list|
  {
    forall j: nat :: j < states[n].list[i].nr ==> AskOf(states, events, i, j, n).closed
  }

  /** Main result: an event leads to calls of a driver's close if and only if it is a close of a client attached to the
    driver, and by then every client attached to it has been closed. */
  lemma CloseIsCalledIff(states: seq<State>, events: seq<Event>, answers: Answers, n: nat, i: nat)
    requires IsRun(states, events, answers) && n < |events| && i < |states[n].list|
    ensures |states| == |events| + 1 && i < |states[n + 1].list|
    ensures Closes(states[n + 1].list[i].calls) >= Closes(states[n].list[i].calls)
    ensures Closes(states[n + 1].list[i].calls) > Closes(states[n].list[i].calls) <==>
            && events[n].Close? && Attached(states[n], i, events[n].client)
            && AllAskedToClose(states, events, i, n + 1)
  {
    RunShape(states, events, answers);
    hide IsRun, Apply, Inv, Allowed, Closes, AskOf, Attached;
    RunStep(states, events, answers, n);
    ClosesOfEvent(states[n], events[n], answers, i);
    ClosedIffAsked(states, events, answers, n + 1, i);
  }

  lemma ClosedIffAsked(states: seq<State>, events: seq<Event>, answers: Answers, n: nat, i: nat)
    requires IsRun(states, events, answers) && |states| == |events| + 1 && n <= |events| && i < |states[n].list|
    ensures AllClosed(states[n].list[i]) <==> AllAskedToClose(states, events, i, n)
  {
    hide IsRun, AskOf;
    var d := states[n].list[i];
    forall j: nat | j < d.nr
      ensures CLOSE in d.slots[j].status <==> AskOf(states, events, i, j, n).closed
    {
      SlotHoldsAsk(states, events, answers, n, i, j);
    }
  }

  lemma ClosesOfEvent(s: State, e: Event, answers: Answers, i: nat)
    requires Inv(s) && Allowed(s, e, answers) && i < |s.list|
    ensures i < |Apply(s, e, answers).list|
    ensures var d := Apply(s, e, answers).list[i];
            && Closes(d.calls) >= Closes(s.list[i].calls)
            && (Closes(d.calls) > Closes(s.list[i].calls) <==> e.Close? && Attached(s, i, e.client) && AllClosed(d))
  {
    hide Inv, Operate, InitLinks, Closes, Attached, AllClosed;
    match e
    case Register(sensor, kind) =>
    case Init(c) => ClosesOfInit(s, c, -1, answers, i);
    case Activate(c, on) => ClosesOfOperation(s, c, OpActivate(on), i);
    case SetDelay(c, ns) => ClosesOfOperation(s, c, OpSetDelay(ns), i);
    case Close(c) => ClosesOfOperation(s, c, OpClose, i);
  }

  // ---- when a rate is sent ----

  /** How often a rate was sent. */
  function Delays(calls: seq<Call>): nat {
    if calls == [] then 0 else Delays(calls[..|calls| - 1]) + if calls[|calls| - 1].CallSetDelay? then 1 else 0
  }

  lemma DelaysOfOneMore(calls: seq<Call>, c: Call)
    ensures Delays(calls + [c]) == Delays(calls) + if c.CallSetDelay? then 1 else 0
  {
    assert (calls + [c])[..|calls|] == calls;
  }

  /** A rate is sent once if the least rate asked for changes, except that disabling and closing do not withdraw the
    last one; else none is sent. */
  lemma RateIsSentOnChange(d: Driver, client: nat, op: Operation)
    requires client < d.nr
    ensures var d' := OnSlot(d, client, op);
            Delays(d'.calls) == Delays(d.calls) +
              if !op.OpClose? && Rate(d') != Rate(d) && (op.OpSetDelay? || Rate(d') != NO_RATE) then 1 else 0
  {
    hide Delays, Has, Rate, Count;
    var s := d.slots[client];
    match op
    case OpActivate(enable) =>
      var cleared := WithSlot(d, client, s.(status := s.status - {ACTIVE}, rate := NO_RATE));
      DelaysOfOneMore(d.calls, CallActivate(true));
      DelaysOfOneMore(d.calls, CallSetDelay(Rate(cleared)));
      DelaysOfOneMore(WithdrawSlot(d, client).calls, CallActivate(false));
      if enable {
        SameRates(d, OnSlot(d, client, op));
      } else {
        SameRates(cleared, OnSlot(d, client, op));
      }
    case OpSetDelay(ns) =>
      var d' := WithSlot(d, client, s.(rate := ns));
      DelaysOfOneMore(d.calls, CallSetDelay(Rate(d')));
      SameRates(d', OnSlot(d, client, op));
    case OpClose =>
      DelaysOfOneMore(d.calls, CallClose);
  }

  /** An operation of a client leaves the drivers that it is not attached to as they are, calls included. */
  lemma OperateLeavesOthers(s: State, c: nat, op: Operation, i: nat)
    requires Inv(s) && c < |s.descs| && i < |s.list| && !Attached(s, i, c)
    ensures |Operate(s, c, op).list| == |s.list| && Operate(s, c, op).list[i] == s.list[i]
  {
    hide OnLinks, DriverOk, Attached;
    OwnedLinksAreValid(s, c);
    LinkedIffAttached(s, c, i);
    OtherDriversStay(s.list, s.descs[c].links, |s.descs[c].links|, op, i);
  }

  lemma {:induction false} OtherDriversStay(list: seq<Driver>, links: seq<Link>, n: nat, op: Operation, i: nat)
    requires n <= |links| && LinksValid(list, links) && i < |list|
    requires forall k :: 0 <= k < |links| ==> links[k].sensor != i
    ensures OnLinks(list, links, n, op)[i] == list[i]
  {
    hide OnSlot;
    if n == 0 {
    } else {
      OtherDriversStay(list, links, n - 1, op, i);
    }
  }

  /** A driver is registered behind the others, with four clear slots, while there are fewer than sixteen. */
  lemma RegisterAppends(s: State, sensor: nat, kind: int, answers: Answers)
    requires Inv(s)
    ensures var slot := Slot(None, {}, -1);
            Apply(s, Register(sensor, kind), answers)
            == if |s.list| < 16 then s.(list := s.list + [Driver(sensor, kind, [slot, slot, slot, slot], 0, [])]) else s
  {
    hide Inv;
  }
}
