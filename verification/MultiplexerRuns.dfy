/** What every run of the multiplexer keeps, for any number of clients and any answers of the drivers. */
module MultiplexerRuns {
  import opened Options
  import opened Multiplexer

  // ---- what can be read off the calls made to a driver ----

  /** Whether the last activate call was an enable. */
  function LastEnable(calls: seq<Call>): bool {
    if calls == [] then false else
    match calls[|calls| - 1]
    case CallActivate(enable) => enable
    case _ => LastEnable(calls[..|calls| - 1])
  }

  /** The rate of the last set_delay call. */
  function LastDelay(calls: seq<Call>): Option<int64> {
    if calls == [] then None else
    match calls[|calls| - 1]
    case CallSetDelay(ns) => Some(ns)
    case _ => LastDelay(calls[..|calls| - 1])
  }

  /** How many init calls succeeded. */
  function InitSuccesses(calls: seq<Call>): nat {
    if calls == [] then 0 else
    InitSuccesses(calls[..|calls| - 1])
    + match calls[|calls| - 1] case CallInit(rv) => (if rv >= 0 then 1 else 0) case _ => 0
  }

  /** An enable is only issued when the last activate call was not an enable. */
  ghost predicate NoDoubleEnable(calls: seq<Call>) {
    forall i :: 0 <= i < |calls| && calls[i] == CallActivate(true) ==> !LastEnable(calls[..i])
  }

  lemma OneMoreCall(calls: seq<Call>, c: Call)
    ensures LastEnable(calls + [c]) == match c case CallActivate(enable) => enable case _ => LastEnable(calls)
    ensures LastDelay(calls + [c]) == match c case CallSetDelay(ns) => Some(ns) case _ => LastDelay(calls)
    ensures InitSuccesses(calls + [c])
         == InitSuccesses(calls) + match c case CallInit(rv) => (if rv >= 0 then 1 else 0) case _ => 0
    ensures NoDoubleEnable(calls) && !(c == CallActivate(true) && LastEnable(calls)) ==> NoDoubleEnable(calls + [c])
  {
    var all := calls + [c];
    assert all[..|calls|] == calls;
    assert forall i :: 0 <= i < |calls| ==> all[..i] == calls[..i];
  }

  // ---- one driver ----

  /** Slots in use belong to initialised clients; the others are untouched. */
  ghost predicate SlotsOk(d: Driver) {
    && (forall j :: d.nr <= j < MAX_SENSOR_CONNECTIONS ==> d.slots[j] == PRISTINE)
    && (forall j :: 0 <= j < d.nr ==> d.slots[j].api.Some? && INIT in d.slots[j].status)
  }

  /** The driver was last enabled iff a client is active, and was only enabled when no client was. */
  ghost predicate ActivationOk(d: Driver) {
    (LastEnable(d.calls) <==> Has(d, ACTIVE)) && NoDoubleEnable(d.calls)
  }

  /** The driver runs at least as fast as asked. */
  ghost predicate FastEnough(d: Driver) {
    Rate(d) != NO_RATE ==> LastDelay(d.calls).Some? && 0 <= LastDelay(d.calls).value <= Rate(d)
  }

  /** The driver runs exactly at the fastest rate asked for. */
  ghost predicate RateExact(d: Driver) {
    Rate(d) != NO_RATE ==> LastDelay(d.calls) == Some(Rate(d))
  }

  ghost predicate InitialisedOnce(d: Driver) {
    InitSuccesses(d.calls) == if d.nr > 0 then 1 else 0
  }

  ghost predicate DriverOk(d: Driver) {
    SlotsOk(d) && ActivationOk(d) && FastEnough(d) && InitialisedOnce(d)
  }

  /** Dropping one request leaves a rate that is no faster. */
  lemma RateAfterDrop(d: Driver, d': Driver, client: nat)
    requires client < d.nr && d'.nr == d.nr && d'.slots[client].rate < 0
    requires forall j :: 0 <= j < d.nr && j != client ==> d'.slots[j].rate == d.slots[j].rate
    ensures Rate(d') != NO_RATE ==> Rate(d) != NO_RATE && Rate(d) <= Rate(d')
  {
  }

  lemma RateIsNonNegative(d: Driver)
    ensures Rate(d) == NO_RATE || Rate(d) >= 0
  {
  }

  lemma SameRates(d: Driver, d': Driver)
    requires d'.nr == d.nr && forall j :: 0 <= j < d.nr ==> d'.slots[j].rate == d.slots[j].rate
    ensures Rate(d') == Rate(d)
  {
  }

  lemma SlotsAfter(d: Driver, client: nat, op: Operation)
    requires SlotsOk(d) && client < d.nr
    ensures SlotsOk(OnSlot(d, client, op))
  {
    hide Rate, Has, Count;
  }

  lemma ActivationAfterActivate(d: Driver, client: nat, enable: bool)
    requires ActivationOk(d) && client < d.nr
    ensures ActivationOk(ActivateSlot(d, client, enable))
    ensures enable ==> Has(ActivateSlot(d, client, enable), ACTIVE)
  {
    hide ActivationOk, Has, WithdrawSlot, Called;
    if enable {
      ActivationAfterEnable(d, client);
    } else {
      ActivationAfterWithdraw(d, client);
      ActivationAfterDisable(WithdrawSlot(d, client));
    }
  }

  lemma ActivationAfterEnable(d: Driver, client: nat)
    requires ActivationOk(d) && client < d.nr
    ensures ActivationOk(ActivateSlot(d, client, true)) && Has(ActivateSlot(d, client, true), ACTIVE)
  {
    hide NoDoubleEnable, LastEnable, WithdrawSlot;
    OneMoreCall(d.calls, CallActivate(true));
    assert ACTIVE in ActivateSlot(d, client, true).slots[client].status;
  }

  /** Withdrawing a client issues no activate call, and makes no client active. */
  lemma ActivationAfterWithdraw(d: Driver, client: nat)
    requires ActivationOk(d) && client < d.nr
    ensures var d' := WithdrawSlot(d, client);
            && NoDoubleEnable(d'.calls)
            && LastEnable(d'.calls) == LastEnable(d.calls)
            && (Has(d', ACTIVE) ==> LastEnable(d'.calls))
  {
    hide Rate, NoDoubleEnable, LastEnable;
    var s := d.slots[client];
    OneMoreCall(d.calls, CallSetDelay(Rate(WithSlot(d, client, s.(status := s.status - {ACTIVE}, rate := NO_RATE)))));
    assert Has(WithdrawSlot(d, client), ACTIVE) ==> Has(d, ACTIVE);
  }

  lemma ActivationAfterDisable(d: Driver)
    requires NoDoubleEnable(d.calls) && (Has(d, ACTIVE) ==> LastEnable(d.calls))
    ensures ActivationOk(if Has(d, ACTIVE) then d else Called(d, CallActivate(false)))
  {
    hide NoDoubleEnable, LastEnable;
    OneMoreCall(d.calls, CallActivate(false));
  }

  lemma RateAfterActivate(d: Driver, client: nat, enable: bool)
    requires client < d.nr
    ensures FastEnough(d) ==> FastEnough(ActivateSlot(d, client, enable))
    ensures RateExact(d) ==> RateExact(ActivateSlot(d, client, enable))
  {
    hide FastEnough, RateExact, Has, WithdrawSlot, Called;
    if enable {
      var s := d.slots[client];
      var d' := WithSlot(d, client, s.(status := s.status + {ACTIVE}));
      SameRatesKept(d, d');
      RateAfterEnableCall(d', true);
    } else {
      RateAfterWithdraw(d, client);
      RateAfterEnableCall(WithdrawSlot(d, client), false);
    }
  }

  lemma SameRatesKept(d: Driver, d': Driver)
    requires d'.nr == d.nr && d'.calls == d.calls
    requires forall j :: 0 <= j < d.nr ==> d'.slots[j].rate == d.slots[j].rate
    ensures FastEnough(d') == FastEnough(d) && RateExact(d') == RateExact(d)
  {
    hide Rate, LastDelay;
    SameRates(d, d');
  }

  lemma RateAfterEnableCall(d: Driver, enable: bool)
    ensures FastEnough(Called(d, CallActivate(enable))) == FastEnough(d)
    ensures RateExact(Called(d, CallActivate(enable))) == RateExact(d)
  {
    hide Rate, LastDelay;
    OneMoreCall(d.calls, CallActivate(enable));
    SameRates(d, Called(d, CallActivate(enable)));
  }

  lemma RateAfterWithdraw(d: Driver, client: nat)
    requires client < d.nr
    ensures FastEnough(d) ==> FastEnough(WithdrawSlot(d, client))
    ensures RateExact(d) ==> RateExact(WithdrawSlot(d, client))
  {
    hide Rate, LastDelay;
    var s := d.slots[client];
    var cleared := WithSlot(d, client, s.(status := s.status - {ACTIVE}, rate := NO_RATE));
    OneMoreCall(d.calls, CallSetDelay(Rate(cleared)));
    RateAfterDrop(d, cleared, client);
    RateIsNonNegative(cleared);
    SameRates(cleared, WithdrawSlot(d, client));
  }

  lemma RateAfterDelay(d: Driver, client: nat, ns: int64)
    requires client < d.nr
    ensures FastEnough(d) ==> FastEnough(DelaySlot(d, client, ns))
    ensures RateExact(d) ==> RateExact(DelaySlot(d, client, ns))
  {
    hide Rate, LastDelay;
    var requested := WithSlot(d, client, d.slots[client].(rate := ns));
    OneMoreCall(d.calls, CallSetDelay(Rate(requested)));
    SameRates(requested, DelaySlot(d, client, ns));
    RateIsNonNegative(requested);
  }

  lemma RateAfterClose(d: Driver, client: nat)
    requires client < d.nr
    ensures FastEnough(d) ==> FastEnough(CloseSlot(d, client))
  {
    hide Rate, LastDelay, Count;
    var s := d.slots[client];
    var d' := CloseSlot(d, client);
    OneMoreCall(d.calls, CallClose);
    RateAfterDrop(d, d', client);
  }

  /** No other client of the driver asks for a rate. */
  predicate NobodyElseAsks(d: Driver, client: nat) {
    forall j :: 0 <= j < d.nr && j != client ==> d.slots[j].rate < 0
  }

  /** Another client of the driver asks for the fastest rate. */
  predicate AnotherAsksFastest(d: Driver, client: nat) {
    exists j :: 0 <= j < d.nr && j != client && d.slots[j].rate == Rate(d)
  }

  /** Close sends no new rate, so it keeps the rate exact only when no other client asks for a rate, or another one asks
    for the fastest. */
  lemma CloseKeepsRateExactIff(d: Driver, client: nat)
    requires client < d.nr && RateExact(d)
    ensures RateExact(CloseSlot(d, client)) <==> NobodyElseAsks(d, client) || AnotherAsksFastest(d, client)
  {
    var d' := CloseSlot(d, client);
    assert d'.nr == d.nr && d'.slots[client].rate == NO_RATE;
    assert forall j :: 0 <= j < d.nr && j != client ==> d'.slots[j] == d.slots[j];
    hide LastDelay, Count, CloseSlot;
    CloseKeepsLastDelay(d, client);
    RateAfterDrop(d, d', client);
  }

  lemma CloseKeepsLastDelay(d: Driver, client: nat)
    requires client < d.nr
    ensures LastDelay(CloseSlot(d, client).calls) == LastDelay(d.calls)
  {
    hide LastDelay, Count;
    OneMoreCall(d.calls, CallClose);
  }

  /** Two clients ask for rates of 5 and 9, and the faster one is closed: the driver satisfies the invariant and keeps
    running at 5, although only 9 is asked for. */
  lemma CloseLeavesDriverTooFast() returns (d: Driver)
    ensures DriverOk(d) && RateExact(d) && d.nr == 2
    ensures DriverOk(CloseSlot(d, 0)) && !RateExact(CloseSlot(d, 0))
    ensures Rate(CloseSlot(d, 0)) == 9 && LastDelay(CloseSlot(d, 0).calls) == Some(5)
  {
    hide *;
    d := FastAndSlowClient();
    OperationKeepsDriver(d, 0, OpClose);
    SlowClientIsLeft(d);
    CloseKeepsLastDelay(d, 0);
    LateRateIsNotExact(CloseSlot(d, 0));
  }

  lemma FastAndSlowClient() returns (d: Driver)
    ensures d.nr == 2 && d.slots[0].rate == 5 && d.slots[1].rate == 9
    ensures DriverOk(d) && RateExact(d) && LastDelay(d.calls) == Some(5)
    ensures OnSlot(d, 0, OpClose) == CloseSlot(d, 0)
  {
    var calls := [CallInit(0), CallSetDelay(5)];
    d := Driver(0, 0, [Slot(Some(0), {INIT}, 5), Slot(Some(1), {INIT}, 9), PRISTINE, PRISTINE], 2, calls);
    hide LastDelay, LastEnable, InitSuccesses, NoDoubleEnable, MinRate, CloseSlot;
    CallsOfTwoClients(calls);
    assert d.slots[0].rate == 5 && d.slots[1].rate == 9;
    assert Rate(d) == 5;
  }

  lemma SlowClientIsLeft(d: Driver)
    requires d.nr == 2 && d.slots[1].rate == 9
    ensures Rate(CloseSlot(d, 0)) == 9
  {
    hide MinRate, Count;
    var d' := CloseSlot(d, 0);
    assert d'.nr == 2 && d'.slots[0].rate == NO_RATE && d'.slots[1].rate == 9;
  }

  lemma LateRateIsNotExact(d: Driver)
    requires Rate(d) == 9 && LastDelay(d.calls) == Some(5)
    ensures !RateExact(d)
  {
    hide Rate, LastDelay;
  }

  lemma CallsOfTwoClients(calls: seq<Call>)
    requires calls == [CallInit(0), CallSetDelay(5)]
    ensures LastDelay(calls) == Some(5) && !LastEnable(calls) && NoDoubleEnable(calls) && InitSuccesses(calls) == 1
  {
    hide LastDelay, LastEnable, NoDoubleEnable, InitSuccesses;
    var first: seq<Call> := [CallInit(0)];
    assert [] + [CallInit(0)] == first && first + [CallSetDelay(5)] == calls;
    NoCallsYet();
    OneMoreCall([], CallInit(0));
    OneMoreCall(first, CallSetDelay(5));
  }

  lemma NoCallsYet()
    ensures !LastEnable([]) && NoDoubleEnable([]) && InitSuccesses([]) == 0
  {
  }

  lemma SameActivation(d: Driver, d': Driver)
    requires d'.nr == d.nr
    requires forall j :: 0 <= j < d.nr ==> (ACTIVE in d'.slots[j].status <==> ACTIVE in d.slots[j].status)
    ensures Has(d', ACTIVE) == Has(d, ACTIVE)
  {
  }

  lemma OtherCalls(d: Driver, client: nat, op: Operation)
    requires client < d.nr
    ensures InitialisedOnce(d) ==> InitialisedOnce(OnSlot(d, client, op))
    ensures !op.OpActivate? && ActivationOk(d) ==> ActivationOk(OnSlot(d, client, op))
  {
    hide Rate, Has, Count, NoDoubleEnable, LastEnable, InitSuccesses;
    var d' := OnSlot(d, client, op);
    match op
    case OpActivate(enable) =>
      var w := WithdrawSlot(d, client);
      var s := d.slots[client];
      OneMoreCall(d.calls, CallActivate(true));
      OneMoreCall(d.calls, CallSetDelay(Rate(WithSlot(d, client, s.(status := s.status - {ACTIVE}, rate := NO_RATE)))));
      OneMoreCall(w.calls, CallActivate(false));
    case OpSetDelay(ns) =>
      OneMoreCall(d.calls, CallSetDelay(Rate(WithSlot(d, client, d.slots[client].(rate := ns)))));
      SameActivation(d, d');
    case OpClose =>
      OneMoreCall(d.calls, CallClose);
      SameActivation(d, d');
  }

  /** Every operation on an attached slot keeps the driver invariant; all but close keep the rate exact. */
  lemma OperationKeepsDriver(d: Driver, client: nat, op: Operation)
    requires DriverOk(d) && client < d.nr
    ensures DriverOk(OnSlot(d, client, op))
    ensures !op.OpClose? && RateExact(d) ==> RateExact(OnSlot(d, client, op))
  {
    hide SlotsOk, ActivationOk, FastEnough, InitialisedOnce, RateExact, ActivateSlot, DelaySlot, CloseSlot;
    SlotsAfter(d, client, op);
    OtherCalls(d, client, op);
    match op
    case OpActivate(enable) =>
      ActivationAfterActivate(d, client, enable);
      RateAfterActivate(d, client, enable);
    case OpSetDelay(ns) =>
      RateAfterDelay(d, client, ns);
    case OpClose =>
      RateAfterClose(d, client);
  }

  // ---- the whole state ----

  /** A link of a client points at a slot in use that points back, at a driver of the type wanted. */
  ghost predicate Backed(s: State, c: nat, k: nat)
    requires c < |s.descs| && k < |s.descs[c].links|
  {
    var l := s.descs[c].links[k];
    && l.sensor < |s.list| && l.client < s.list[l.sensor].nr
    && s.list[l.sensor].slots[l.client].api == Some(c)
    && k < |s.descs[c].wanted| && s.list[l.sensor].kind == s.descs[c].wanted[k]
  }

  ghost predicate HasOwner(s: State, i: nat, j: nat) {
    exists c, k :: 0 <= c < |s.descs| && 0 <= k < |s.descs[c].links| && s.descs[c].links[k] == Link(i, j)
  }

  ghost predicate DistinctLinks(links: seq<Link>) {
    forall k, m :: 0 <= k < m < |links| ==> links[k] != links[m]
  }

  /** Every slot in use belongs to exactly one match of exactly one client. */
  ghost predicate Owned(s: State) {
    && (forall c, k :: 0 <= c < |s.descs| && 0 <= k < |s.descs[c].links| ==> Backed(s, c, k))
    && (forall i, j :: 0 <= i < |s.list| && 0 <= j < s.list[i].nr ==> HasOwner(s, i, j))
    && (forall c :: 0 <= c < |s.descs| ==> DistinctLinks(s.descs[c].links))
  }

  ghost predicate Inv(s: State) {
    Owned(s) && |s.list| <= MAX_DRIVERS && forall i :: 0 <= i < |s.list| ==> DriverOk(s.list[i])
  }

  ghost predicate AllExact(s: State) {
    forall i :: 0 <= i < |s.list| ==> RateExact(s.list[i])
  }

  ghost predicate SameShape(d: Driver, d': Driver) {
    d'.sensor == d.sensor && d'.kind == d.kind && d'.nr == d.nr
    && forall j :: 0 <= j < MAX_SENSOR_CONNECTIONS ==> d'.slots[j].api == d.slots[j].api
  }

  ghost predicate InUse(list: seq<Driver>, links: seq<Link>) {
    forall k :: 0 <= k < |links| ==> links[k].sensor < |list| && links[k].client < list[links[k].sensor].nr
  }

  lemma OperationKeepsShape(d: Driver, client: nat, op: Operation)
    requires client < MAX_SENSOR_CONNECTIONS
    ensures SameShape(d, OnSlot(d, client, op))
  {
    hide Rate, Has, Count;
  }

  lemma {:induction false} OperationOnLinks(list: seq<Driver>, links: seq<Link>, n: nat, op: Operation)
    requires n <= |links| && InUse(list, links) && LinksValid(list, links)
    requires forall i :: 0 <= i < |list| ==> DriverOk(list[i])
    ensures forall i :: 0 <= i < |list| ==> DriverOk(OnLinks(list, links, n, op)[i])
    ensures forall i :: 0 <= i < |list| ==> SameShape(list[i], OnLinks(list, links, n, op)[i])
    ensures !op.OpClose? && (forall i :: 0 <= i < |list| ==> RateExact(list[i])) ==>
              forall i :: 0 <= i < |list| ==> RateExact(OnLinks(list, links, n, op)[i])
  {
    hide DriverOk, RateExact, OnSlot;
    if n == 0 {
    } else {
      OperationOnLinks(list, links, n - 1, op);
      var l := OnLinks(list, links, n - 1, op);
      var k := links[n - 1];
      assert SameShape(list[k.sensor], l[k.sensor]);
      OperationKeepsDriver(l[k.sensor], k.client, op);
      OperationKeepsShape(l[k.sensor], k.client, op);
    }
  }

  lemma OwnedAfterOperation(s: State, s': State)
    requires Owned(s) && s'.descs == s.descs && |s'.list| == |s.list|
    requires forall i :: 0 <= i < |s.list| ==> SameShape(s.list[i], s'.list[i])
    ensures Owned(s')
  {
    forall c, k | 0 <= c < |s.descs| && 0 <= k < |s.descs[c].links|
      ensures Backed(s', c, k)
    {
      assert Backed(s, c, k);
    }
    forall i, j | 0 <= i < |s.list| && 0 <= j < s'.list[i].nr
      ensures HasOwner(s', i, j)
    {
      assert HasOwner(s, i, j);
    }
  }

  // ---- init ----

  /** A driver that a scan would take: already initialised, or about to initialise successfully. */
  predicate Usable(d: Driver, index: nat, answers: Answers) {
    Has(d, INIT) || answers(index, |d.calls|) >= 0
  }

  /** The driver found is the first usable one of the type from position i on, and exactly the uninitialised drivers of
    that type up to there were tried, once each. */
  ghost predicate FindsFirstUsable(list: seq<Driver>, kind: int, i: nat, answers: Answers, p: Picked) {
    && |p.list| == |list|
    && (p.found.Some? ==>
          && i <= p.found.value < |list|
          && list[p.found.value].kind == kind && Usable(list[p.found.value], p.found.value, answers))
    && (forall m :: i <= m < |list| && list[m].kind == kind && (p.found == None || m < p.found.value) ==>
          !Usable(list[m], m, answers))
    && (forall m :: 0 <= m < |list| ==>
          p.list[m] == if && i <= m && list[m].kind == kind
                          && (p.found == None || m <= p.found.value) && !Has(list[m], INIT)
                       then Called(list[m], CallInit(answers(m, |list[m].calls|))) else list[m])
  }

  lemma {:induction false} PickIsFirstUsable(list: seq<Driver>, kind: int, i: nat, err: int, answers: Answers)
    requires i <= |list|
    ensures FindsFirstUsable(list, kind, i, answers, Pick(list, kind, i, err, answers))
    ensures err < 0 ==> Pick(list, kind, i, err, answers).err < 0
    decreases |list| - i
  {
    hide Has, FindsFirstUsable;
    if i == |list| {
      NothingLeft(list, kind, i, err, answers);
    } else if list[i].kind != kind {
      PickIsFirstUsable(list, kind, i + 1, err, answers);
      OtherType(list, kind, i, answers, Pick(list, kind, i + 1, err, answers));
    } else if Usable(list[i], i, answers) {
      UsableNow(list, kind, i, err, answers);
    } else {
      var rv := answers(i, |list[i].calls|);
      var tried := list[i := Called(list[i], CallInit(rv))];
      PickIsFirstUsable(tried, kind, i + 1, rv, answers);
      InitFails(list, kind, i, answers, Pick(tried, kind, i + 1, rv, answers));
    }
  }

  lemma NothingLeft(list: seq<Driver>, kind: int, i: nat, err: int, answers: Answers)
    requires i == |list|
    ensures FindsFirstUsable(list, kind, i, answers, Picked(list, None, err))
  {
  }

  lemma OtherType(list: seq<Driver>, kind: int, i: nat, answers: Answers, p: Picked)
    requires i < |list| && list[i].kind != kind && FindsFirstUsable(list, kind, i + 1, answers, p)
    ensures FindsFirstUsable(list, kind, i, answers, p)
  {
    hide Has, Usable, Called;
  }

  lemma UsableNow(list: seq<Driver>, kind: int, i: nat, err: int, answers: Answers)
    requires i < |list| && list[i].kind == kind && Usable(list[i], i, answers)
    ensures FindsFirstUsable(list, kind, i, answers, Pick(list, kind, i, err, answers))
  {
    hide Has;
  }

  lemma InitFails(list: seq<Driver>, kind: int, i: nat, answers: Answers, p: Picked)
    requires i < |list| && list[i].kind == kind && !Usable(list[i], i, answers)
    requires var tried := list[i := Called(list[i], CallInit(answers(i, |list[i].calls|)))];
             FindsFirstUsable(tried, kind, i + 1, answers, p)
    ensures FindsFirstUsable(list, kind, i, answers, p)
  {
    assert !Has(list[i], INIT);
    var tried := list[i := Called(list[i], CallInit(answers(i, |list[i].calls|)))];
    assert forall m :: 0 <= m < |list| && m != i ==> tried[m] == list[m];
    hide Has, Usable, Called;
  }

  lemma FailedInitKeepsDriver(d: Driver, rv: int)
    requires DriverOk(d) && rv < 0
    ensures DriverOk(Called(d, CallInit(rv)))
    ensures RateExact(d) ==> RateExact(Called(d, CallInit(rv)))
  {
    hide LastEnable, LastDelay, NoDoubleEnable, InitSuccesses;
    var d' := Called(d, CallInit(rv));
    OneMoreCall(d.calls, CallInit(rv));
    SameRates(d, d');
    SameActivation(d, d');
  }

  lemma RateAfterAttach(d: Driver, client: nat)
    requires d.nr < MAX_SENSOR_CONNECTIONS && d.slots[d.nr] == PRISTINE
    ensures Rate(AttachSlot(d, client)) == Rate(d)
    ensures Has(AttachSlot(d, client), ACTIVE) == Has(d, ACTIVE)
  {
    var d' := AttachSlot(d, client);
    MinRateFrame(d, d', d.nr);
    assert forall j :: 0 <= j < d.nr ==> d'.slots[j] == d.slots[j];
  }

  lemma {:induction false} MinRateFrame(d: Driver, d': Driver, n: nat)
    requires n <= d.nr && n <= d'.nr && forall j :: 0 <= j < n ==> d'.slots[j].rate == d.slots[j].rate
    ensures MinRate(d', n) == MinRate(d, n)
  {
    if n == 0 {
    } else {
      MinRateFrame(d, d', n - 1);
    }
  }

  /** Attaching a client to a usable driver, after the init call if one was needed. */
  lemma AttachKeepsDriver(d: Driver, tried: Driver, rv: int, client: nat)
    requires DriverOk(d) && d.nr < MAX_SENSOR_CONNECTIONS
    requires Has(d, INIT) || rv >= 0
    requires tried == if Has(d, INIT) then d else Called(d, CallInit(rv))
    ensures DriverOk(AttachSlot(tried, client))
    ensures RateExact(d) ==> RateExact(AttachSlot(tried, client))
  {
    hide LastEnable, LastDelay, NoDoubleEnable, InitSuccesses, Rate;
    OneMoreCall(d.calls, CallInit(rv));
    assert Has(d, INIT) <==> d.nr > 0 by {
      if d.nr > 0 {
        assert INIT in d.slots[0].status;
      }
    }
    SameRates(d, tried);
    SameActivation(d, tried);
    RateAfterAttach(tried, client);
    hide Has;
  }

  lemma ScanKeepsDrivers(list: seq<Driver>, kind: int, err: int, answers: Answers, p: Picked)
    requires p == Pick(list, kind, 0, err, answers)
    requires forall i :: 0 <= i < |list| ==> DriverOk(list[i])
    ensures forall i :: 0 <= i < |list| && p.found != Some(i) ==> DriverOk(p.list[i])
    ensures forall i :: 0 <= i < |list| && p.found != Some(i) && RateExact(list[i]) ==> RateExact(p.list[i])
    ensures forall i :: 0 <= i < |list| ==> SameShape(list[i], p.list[i])
  {
    hide DriverOk, RateExact, Has, Pick;
    PickIsFirstUsable(list, kind, 0, err, answers);
    forall i | 0 <= i < |list| && p.found != Some(i)
      ensures DriverOk(p.list[i]) && (RateExact(list[i]) ==> RateExact(p.list[i]))
    {
      var rv := answers(i, |list[i].calls|);
      if rv < 0 {
        FailedInitKeepsDriver(list[i], rv);
      }
    }
  }

  lemma OwnedAfterAttach(s: State, list: seq<Driver>, c: nat, i: nat)
    requires Owned(s) && |list| == |s.list| && c < |s.descs| && i < |list|
    requires forall m :: 0 <= m < |list| ==> SameShape(s.list[m], list[m])
    requires list[i].nr < MAX_SENSOR_CONNECTIONS
    requires |s.descs[c].links| < |s.descs[c].wanted| && list[i].kind == s.descs[c].wanted[|s.descs[c].links|]
    ensures var links := s.descs[c].links + [Link(i, list[i].nr)];
            Owned(State(list[i := AttachSlot(list[i], c)], s.descs[c := s.descs[c].(links := links)]))
  {
    var before := s.descs[c].links;
    var links := before + [Link(i, list[i].nr)];
    var s' := State(list[i := AttachSlot(list[i], c)], s.descs[c := s.descs[c].(links := links)]);
    forall b, k | 0 <= b < |s'.descs| && 0 <= k < |s'.descs[b].links|
      ensures Backed(s', b, k)
    {
      if b != c || k < |before| {
        assert Backed(s, b, k);
      }
    }
    forall m, j | 0 <= m < |s'.list| && 0 <= j < s'.list[m].nr
      ensures HasOwner(s', m, j)
    {
      if m == i && j == list[i].nr {
        assert s'.descs[c].links[|before|] == Link(m, j);
      } else {
        assert HasOwner(s, m, j);
        var b, k :| 0 <= b < |s.descs| && 0 <= k < |s.descs[b].links| && s.descs[b].links[k] == Link(m, j);
        assert s'.descs[b].links[k] == Link(m, j);
      }
    }
    forall b | 0 <= b < |s'.descs|
      ensures DistinctLinks(s'.descs[b].links)
    {
      if b == c {
        forall k | 0 <= k < |before|
          ensures before[k] != Link(i, list[i].nr)
        {
          assert Backed(s, c, k);
        }
      }
    }
  }

  /** Init keeps the invariant through all its scans, returns 0 exactly when the last wanted type found a driver in this
    call, and only adds links; a client that has all its matches already stays as it is. */
  lemma {:induction false} InitKeepsInv(s: State, c: nat, err: int, answers: Answers)
    requires Inv(s) && c < |s.descs|
    requires Room(s.list, s.descs[c].wanted, s.descs[c].links, c, err, answers) && err < 0
    ensures var d := s.descs[c];
            var r := InitLinks(s.list, d.wanted, d.links, c, err, answers);
            && Inv(State(r.list, s.descs[c := d.(links := r.links)]))
            && (AllExact(s) ==> AllExact(State(r.list, s.descs[c := d.(links := r.links)])))
            && d.links <= r.links && |r.links| <= |d.wanted|
            && (r.err == 0 <==> |d.links| < |d.wanted| && |r.links| == |d.wanted|) && r.err <= 0
            && (|d.links| == |d.wanted| ==> r == Initialised(s.list, d.links, err))
    decreases |s.descs[c].wanted| - |s.descs[c].links|
  {
    hide Owned, DriverOk, RateExact, Pick, Room, AttachSlot, Has, InitLinks;
    var d := s.descs[c];
    MatchesAreWanted(s, c);
    if |d.links| == |d.wanted| {
      RepeatedInit(s.list, d.wanted, d.links, c, err, answers);
      assert s.descs[c := d] == s.descs;
      return;
    }
    var p := Pick(s.list, d.wanted[|d.links|], 0, err, answers);
    InitContinues(s.list, d.wanted, d.links, c, err, answers, p);
    PickIsFirstUsable(s.list, d.wanted[|d.links|], 0, err, answers);
    ScanKeepsDrivers(s.list, d.wanted[|d.links|], err, answers, p);
    match p.found
    case None =>
      OwnedAfterOperation(s, State(p.list, s.descs));
      assert s.descs[c := d] == s.descs;
    case Some(i) =>
      AttachKeepsDriver(s.list[i], p.list[i], answers(i, |s.list[i].calls|), c);
      OwnedAfterAttach(s, p.list, c, i);
      var links := d.links + [Link(i, p.list[i].nr)];
      var s' := State(p.list[i := AttachSlot(p.list[i], c)], s.descs[c := d.(links := links)]);
      assert Inv(s');
      if |links| != |d.wanted| {
        InitKeepsInv(s', c, p.err, answers);
        var r := InitLinks(s.list, d.wanted, d.links, c, err, answers);
        assert s'.descs[c := s'.descs[c].(links := r.links)] == s.descs[c := d.(links := r.links)];
      }
  }

  lemma MatchesAreWanted(s: State, c: nat)
    requires Owned(s) && c < |s.descs|
    ensures |s.descs[c].links| <= |s.descs[c].wanted|
  {
    var links := s.descs[c].links;
    if links != [] {
      assert Backed(s, c, |links| - 1);
    }
  }

  /** A client with all its matches looks for no type, and finds nothing. */
  lemma RepeatedInit(
      list: seq<Driver>, wanted: seq<int>, links: seq<Link>, client: nat, err: int, answers: Answers)
    requires |links| == |wanted| && Room(list, wanted, links, client, err, answers)
    ensures InitLinks(list, wanted, links, client, err, answers) == Initialised(list, links, err)
    ensures forall i :: 0 <= i < |list| ==> list[i].kind != WantedType(wanted, |links|)
  {
  }

  // ---- runs ----

  datatype Event = Register(sensor: nat, kind: int) | Init(client: nat) | Activate(client: nat, enable: bool)
                 | SetDelay(client: nat, ns: int64) | Close(client: nat)

  /** What the code relies on: the client exists, and init has free slots to put the client in. */
  ghost predicate Allowed(s: State, e: Event, answers: Answers) {
    match e
    case Register(_, _) => true
    case Init(c) =>
      && c < |s.descs|
      && Room(s.list, s.descs[c].wanted, s.descs[c].links, c, -1, answers)
    case Activate(c, _) => c < |s.descs|
    case SetDelay(c, _) => c < |s.descs|
    case Close(c) => c < |s.descs|
  }

  lemma OwnedLinksAreValid(s: State, c: nat)
    requires Owned(s) && c < |s.descs|
    ensures InUse(s.list, s.descs[c].links) && LinksValid(s.list, s.descs[c].links)
  {
    var links := s.descs[c].links;
    forall k | 0 <= k < |links|
      ensures links[k].sensor < |s.list| && links[k].client < s.list[links[k].sensor].nr
    {
      assert Backed(s, c, k);
    }
  }

  ghost function Operate(s: State, c: nat, op: Operation): State
    requires Inv(s) && c < |s.descs|
  {
    OwnedLinksAreValid(s, c);
    s.(list := OnLinks(s.list, s.descs[c].links, |s.descs[c].links|, op))
  }

  const FRESH_SLOTS: seq<Slot> := [PRISTINE, PRISTINE, PRISTINE, PRISTINE]

  ghost function Apply(s: State, e: Event, answers: Answers): State
    requires Inv(s) && Allowed(s, e, answers)
  {
    match e
    case Register(sensor, kind) =>
      if |s.list| < MAX_DRIVERS then s.(list := s.list + [Driver(sensor, kind, FRESH_SLOTS, 0, [])]) else s
    case Init(c) =>
      var d := s.descs[c];
      var r := InitLinks(s.list, d.wanted, d.links, c, -1, answers);
      State(r.list, s.descs[c := d.(links := r.links)])
    case Activate(c, enable) => Operate(s, c, OpActivate(enable))
    case SetDelay(c, ns) => Operate(s, c, OpSetDelay(ns))
    case Close(c) => Operate(s, c, OpClose)
  }

  /** The value the operation returns: that of the last driver call made, or 0. */
  ghost function Answered(s: State, c: nat, op: Operation, answers: Answers): int
    requires Inv(s) && c < |s.descs|
  {
    OwnedLinksAreValid(s, c);
    ReturnCode(s.list, s.descs[c].links, |s.descs[c].links|, op, answers)
  }

  lemma OperateKeepsInv(s: State, c: nat, op: Operation)
    requires Inv(s) && c < |s.descs|
    ensures Inv(Operate(s, c, op))
    ensures !op.OpClose? && AllExact(s) ==> AllExact(Operate(s, c, op))
  {
    hide Owned, DriverOk, RateExact;
    OwnedLinksAreValid(s, c);
    OperationOnLinks(s.list, s.descs[c].links, |s.descs[c].links|, op);
    OwnedAfterOperation(s, Operate(s, c, op));
  }

  lemma RegisterKeepsInv(s: State, sensor: nat, kind: int)
    requires Inv(s) && |s.list| < MAX_DRIVERS
    ensures Inv(s.(list := s.list + [Driver(sensor, kind, FRESH_SLOTS, 0, [])]))
    ensures AllExact(s) ==> AllExact(s.(list := s.list + [Driver(sensor, kind, FRESH_SLOTS, 0, [])]))
  {
    var d := Driver(sensor, kind, FRESH_SLOTS, 0, []);
    var s' := s.(list := s.list + [d]);
    assert DriverOk(d) && RateExact(d);
    hide DriverOk, RateExact;
    forall c, k | 0 <= c < |s.descs| && 0 <= k < |s.descs[c].links|
      ensures Backed(s', c, k)
    {
      assert Backed(s, c, k);
    }
    forall i, j | 0 <= i < |s'.list| && 0 <= j < s'.list[i].nr
      ensures HasOwner(s', i, j)
    {
      assert HasOwner(s, i, j);
    }
  }

  /** Every step keeps the invariant; every step but close keeps the rates exact. */
  lemma StepKeepsInv(s: State, e: Event, answers: Answers)
    requires Inv(s) && Allowed(s, e, answers)
    ensures Inv(Apply(s, e, answers))
    ensures !e.Close? && AllExact(s) ==> AllExact(Apply(s, e, answers))
  {
    hide Inv, AllExact, Operate;
    match e
    case Register(sensor, kind) =>
      if |s.list| < MAX_DRIVERS {
        RegisterKeepsInv(s, sensor, kind);
      }
    case Init(c) => InitKeepsInv(s, c, -1, answers);
    case Activate(c, enable) => OperateKeepsInv(s, c, OpActivate(enable));
    case SetDelay(c, ns) => OperateKeepsInv(s, c, OpSetDelay(ns));
    case Close(c) => OperateKeepsInv(s, c, OpClose);
  }

  /** No drivers, and clients without links. */
  ghost predicate Start(s: State) {
    s.list == [] && forall c :: 0 <= c < |s.descs| ==> s.descs[c].links == []
  }

  /** One step of a run. Applying an event is only defined in states that satisfy the invariant; RunKeepsInv shows
    that there are no others. */
  ghost predicate LeadsTo(s: State, e: Event, s': State, answers: Answers) {
    Inv(s) ==> Allowed(s, e, answers) && s' == Apply(s, e, answers)
  }

  /** A run: states[0] is a start state and each event leads from one state to the next. */
  ghost predicate IsRun(states: seq<State>, events: seq<Event>, answers: Answers) {
    && |states| == |events| + 1
    && Start(states[0])
    && forall i :: 0 <= i < |events| ==> LeadsTo(states[i], events[i], states[i + 1], answers)
  }

  lemma StartHasInv(s: State)
    requires Start(s)
    ensures Inv(s) && AllExact(s)
  {
  }

  /** Main result: in every state of every run, slots are owned, each driver was initialised exactly once iff it has
    a client, was last enabled iff a client is active, and runs at least at the fastest rate asked for; without
    close, exactly at that rate. */
  lemma {:induction false} RunKeepsInv(states: seq<State>, events: seq<Event>, answers: Answers, n: nat)
    requires IsRun(states, events, answers) && n <= |events|
    ensures Inv(states[n])
    ensures (forall i :: 0 <= i < n ==> !events[i].Close?) ==> AllExact(states[n])
  {
    hide Apply, Allowed, Inv, AllExact;
    if n == 0 {
      assert Inv(states[0]) && AllExact(states[0]) by {
        StartHasInv(states[0]);
      }
    } else {
      RunKeepsInv(states, events, answers, n - 1);
      assert LeadsTo(states[n - 1], events[n - 1], states[n - 1 + 1], answers);
      StepKeepsInv(states[n - 1], events[n - 1], answers);
    }
  }

  // ---- whose slots an operation changes ----

  /** The effect of an operation on a slot of the client. */
  function SlotAfter(s: Slot, op: Operation): Slot {
    match op
    case OpActivate(true) => s.(status := s.status + {ACTIVE})
    case OpActivate(false) => s.(status := s.status - {ACTIVE}, rate := NO_RATE)
    case OpSetDelay(ns) => s.(rate := ns)
    case OpClose => s.(status := s.status + {CLOSE}, rate := NO_RATE)
  }

  lemma OnSlotChangesOneSlot(d: Driver, client: nat, op: Operation)
    requires client < MAX_SENSOR_CONNECTIONS
    ensures OnSlot(d, client, op).slots == d.slots[client := SlotAfter(d.slots[client], op)]
  {
    hide Rate, Has, Count;
  }

  lemma {:induction false} OnLinksChangesOwnSlot(
      list: seq<Driver>, links: seq<Link>, n: nat, op: Operation, i: nat, j: nat)
    requires n <= |links| && LinksValid(list, links) && DistinctLinks(links)
    requires i < |list| && j < MAX_SENSOR_CONNECTIONS
    ensures OnLinks(list, links, n, op)[i].slots[j]
         == if Link(i, j) in links[..n] then SlotAfter(list[i].slots[j], op) else list[i].slots[j]
  {
    hide OnSlot, SlotAfter, DistinctLinks;
    if n == 0 {
    } else {
      OnLinksChangesOwnSlot(list, links, n - 1, op, i, j);
      OneLinkChangesOneSlot(OnLinks(list, links, n - 1, op), links[n - 1], op, i, j);
      LastLink(links, n, Link(i, j));
    }
  }

  lemma LastLink(links: seq<Link>, n: nat, k: Link)
    requires 0 < n <= |links| && DistinctLinks(links)
    ensures k in links[..n] <==> k in links[..n - 1] || k == links[n - 1]
    ensures !(k in links[..n - 1] && k == links[n - 1])
  {
    assert links[..n] == links[..n - 1] + [links[n - 1]];
  }

  lemma OneLinkChangesOneSlot(l: seq<Driver>, k: Link, op: Operation, i: nat, j: nat)
    requires k.sensor < |l| && k.client < MAX_SENSOR_CONNECTIONS && i < |l| && j < MAX_SENSOR_CONNECTIONS
    ensures l[k.sensor := OnSlot(l[k.sensor], k.client, op)][i].slots[j]
         == if k == Link(i, j) then SlotAfter(l[i].slots[j], op) else l[i].slots[j]
  {
    hide OnSlot, SlotAfter;
    OnSlotChangesOneSlot(l[k.sensor], k.client, op);
  }

  /** An operation of a client changes exactly the slots that belong to that client, each as SlotAfter says. */
  lemma OperateChangesOwnSlots(s: State, c: nat, op: Operation, i: nat, j: nat)
    requires Inv(s) && c < |s.descs| && i < |s.list| && j < s.list[i].nr
    ensures Operate(s, c, op).list[i].nr == s.list[i].nr
    ensures Operate(s, c, op).list[i].slots[j]
         == if s.list[i].slots[j].api == Some(c) then SlotAfter(s.list[i].slots[j], op) else s.list[i].slots[j]
  {
    hide OnLinks, SlotAfter, DriverOk;
    var links := s.descs[c].links;
    OwnedLinksAreValid(s, c);
    OnLinksChangesOwnSlot(s.list, links, |links|, op, i, j);
    OperationOnLinks(s.list, links, |links|, op);
    assert SameShape(s.list[i], OnLinks(s.list, links, |links|, op)[i]);
    assert links[..|links|] == links;
    assert HasOwner(s, i, j);
    var b, k :| 0 <= b < |s.descs| && 0 <= k < |s.descs[b].links| && s.descs[b].links[k] == Link(i, j);
    assert Backed(s, b, k);
    if Link(i, j) in links {
      var m :| 0 <= m < |links| && links[m] == Link(i, j);
      assert Backed(s, c, m);
    }
  }

  // ---- closing ----

  /** On driver i, no other client asks for a rate, or another one asks for the fastest. */
  ghost predicate OthersSetRate(s: State, c: nat, i: nat)
    requires i < |s.list|
  {
    var d := s.list[i];
    || (forall j :: 0 <= j < d.nr && d.slots[j].api != Some(c) ==> d.slots[j].rate < 0)
    || (exists j :: 0 <= j < d.nr && d.slots[j].api != Some(c) && d.slots[j].rate == Rate(d))
  }

  /** A client's requests are dropped and no rate is sent. */
  lemma ExactAfterDrops(s: State, c: nat, i: nat, d': Driver)
    requires i < |s.list| && RateExact(s.list[i])
    requires d'.nr == s.list[i].nr && LastDelay(d'.calls) == LastDelay(s.list[i].calls)
    requires forall j :: 0 <= j < d'.nr ==>
               d'.slots[j].rate == if s.list[i].slots[j].api == Some(c) then NO_RATE else s.list[i].slots[j].rate
    ensures RateExact(d') <==> OthersSetRate(s, c, i)
  {
    hide LastDelay;
  }

  lemma {:induction false} CloseKeepsDelays(list: seq<Driver>, links: seq<Link>, n: nat, i: nat)
    requires n <= |links| && InUse(list, links) && LinksValid(list, links) && i < |list|
    ensures var d := OnLinks(list, links, n, OpClose)[i];
            d.nr == list[i].nr && LastDelay(d.calls) == LastDelay(list[i].calls)
  {
    hide CloseSlot, LastDelay;
    if n == 0 {
    } else {
      CloseKeepsDelays(list, links, n - 1, i);
      var l := OnLinks(list, links, n - 1, OpClose);
      var k := links[n - 1];
      CloseKeepsDelays(list, links, n - 1, k.sensor);
      CloseKeepsLastDelay(l[k.sensor], k.client);
      OperationKeepsShape(l[k.sensor], k.client, OpClose);
    }
  }

  /** Closing a client keeps the rates of all drivers exact if and only if on each of them no other client asks for a
    rate, or another one asks for the fastest. */
  lemma CloseKeepsExactIff(s: State, c: nat)
    requires Inv(s) && AllExact(s) && c < |s.descs|
    ensures AllExact(Operate(s, c, OpClose)) <==> forall i :: 0 <= i < |s.list| ==> OthersSetRate(s, c, i)
  {
    var s' := Operate(s, c, OpClose);
    SameListLength(s, c, OpClose);
    forall i | 0 <= i < |s.list|
      ensures RateExact(s'.list[i]) <==> OthersSetRate(s, c, i)
    {
      CloseOnDriver(s, c, i);
    }
    hide RateExact, OthersSetRate, Inv, Operate;
  }

  /** Closing a client none of whose slots asks for a rate keeps all rates exact. */
  lemma QuietCloseKeepsExact(s: State, c: nat)
    requires Inv(s) && AllExact(s) && c < |s.descs|
    requires forall i, j :: 0 <= i < |s.list| && 0 <= j < s.list[i].nr && s.list[i].slots[j].api == Some(c) ==>
               s.list[i].slots[j].rate < 0
    ensures AllExact(Operate(s, c, OpClose))
  {
    hide Inv, Operate, AllExact;
    CloseKeepsExactIff(s, c);
  }

  lemma CloseOnDriver(s: State, c: nat, i: nat)
    requires Inv(s) && AllExact(s) && c < |s.descs| && i < |s.list|
    ensures |Operate(s, c, OpClose).list| == |s.list|
    ensures RateExact(Operate(s, c, OpClose).list[i]) <==> OthersSetRate(s, c, i)
  {
    hide OnLinks, LastDelay, RateExact, OthersSetRate, DriverOk;
    OwnedLinksAreValid(s, c);
    CloseKeepsDelays(s.list, s.descs[c].links, |s.descs[c].links|, i);
    var d' := Operate(s, c, OpClose).list[i];
    hide Inv, Operate;
    forall j | 0 <= j < d'.nr
      ensures d'.slots[j].rate == if s.list[i].slots[j].api == Some(c) then NO_RATE else s.list[i].slots[j].rate
    {
      OperateChangesOwnSlots(s, c, OpClose, i, j);
    }
    ExactAfterDrops(s, c, i, d');
  }

  lemma ScanKeepsSlots(list: seq<Driver>, kind: int, err: int, answers: Answers, p: Picked)
    requires p == Pick(list, kind, 0, err, answers)
    ensures forall i :: 0 <= i < |list| ==> p.list[i].nr == list[i].nr && p.list[i].slots == list[i].slots
  {
    hide Pick;
    PickKeepsShape(list, kind, 0, err, answers);
    forall i | 0 <= i < |list|
      ensures p.list[i].nr == list[i].nr && p.list[i].slots == list[i].slots
    {
    }
  }

  /** Init leaves the slots in use alone; the slots it adds belong to the client and ask for nothing. */
  lemma {:induction false} InitAddsQuietSlots(s: State, c: nat, err: int, answers: Answers, i: nat, j: nat)
    requires Inv(s) && c < |s.descs|
    requires Room(s.list, s.descs[c].wanted, s.descs[c].links, c, err, answers) && err < 0
    requires i < |s.list| && j < MAX_SENSOR_CONNECTIONS
    ensures var r := InitLinks(s.list, s.descs[c].wanted, s.descs[c].links, c, err, answers);
            && |r.list| == |s.list|
            && s.list[i].nr <= r.list[i].nr
            && (j < s.list[i].nr ==> r.list[i].slots[j] == s.list[i].slots[j])
            && (s.list[i].nr <= j < r.list[i].nr ==> r.list[i].slots[j] == Slot(Some(c), {INIT}, NO_RATE))
    decreases |s.descs[c].wanted| - |s.descs[c].links|
  {
    hide Owned, DriverOk, RateExact, Pick, Room, Has, InitLinks;
    var d := s.descs[c];
    MatchesAreWanted(s, c);
    if |d.links| == |d.wanted| {
      RepeatedInit(s.list, d.wanted, d.links, c, err, answers);
      return;
    }
    var p := Pick(s.list, d.wanted[|d.links|], 0, err, answers);
    InitContinues(s.list, d.wanted, d.links, c, err, answers, p);
    PickIsFirstUsable(s.list, d.wanted[|d.links|], 0, err, answers);
    ScanKeepsSlots(s.list, d.wanted[|d.links|], err, answers, p);
    ScanKeepsDrivers(s.list, d.wanted[|d.links|], err, answers, p);
    if p.found.Some? {
      var m := p.found.value;
      assert s.list[m].slots[s.list[m].nr] == PRISTINE by {
        NextSlotIsPristine(s.list[m]);
      }
      AttachKeepsDriver(s.list[m], p.list[m], answers(m, |s.list[m].calls|), c);
      OwnedAfterAttach(s, p.list, c, m);
      var links := d.links + [Link(m, p.list[m].nr)];
      var s' := State(p.list[m := AttachSlot(p.list[m], c)], s.descs[c := d.(links := links)]);
      if |links| != |d.wanted| {
        InitAddsQuietSlots(s', c, p.err, answers, i, j);
      }
    }
  }

  lemma NextSlotIsPristine(d: Driver)
    requires DriverOk(d) && d.nr < MAX_SENSOR_CONNECTIONS
    ensures d.slots[d.nr] == PRISTINE
  {
  }

  // ---- data ----

  /** No slot of the client is active. */
  ghost predicate Idle(s: State, c: nat) {
    forall i, j :: 0 <= i < |s.list| && 0 <= j < s.list[i].nr && s.list[i].slots[j].api == Some(c) ==>
      ACTIVE !in s.list[i].slots[j].status
  }

  lemma {:induction false} ReceiversAreActive(d: Driver, descs: seq<Desc>, n: nat, c: nat)
    requires n <= d.nr
    ensures c in Receivers(d, descs, n) <==>
            && c < |descs| && descs[c].listens
            && exists j :: 0 <= j < n && d.slots[j].api == Some(c) && ACTIVE in d.slots[j].status
  {
    if n == 0 {
    } else {
      ReceiversAreActive(d, descs, n - 1, c);
    }
  }

  lemma OperateKeepsIdle(s: State, b: nat, op: Operation, c: nat)
    requires Inv(s) && b < |s.descs|
    requires (op == OpActivate(false) && b == c) || (Idle(s, c) && !(op == OpActivate(true) && b == c))
    ensures Idle(Operate(s, b, op), c)
  {
    hide Inv, Operate;
    var s' := Operate(s, b, op);
    SameListLength(s, b, op);
    forall i, j | 0 <= i < |s'.list| && 0 <= j < s'.list[i].nr && s'.list[i].slots[j].api == Some(c)
      ensures ACTIVE !in s'.list[i].slots[j].status
    {
      SameNr(s, b, op, i);
      OperateChangesOwnSlots(s, b, op, i, j);
    }
  }

  lemma SameListLength(s: State, b: nat, op: Operation)
    requires Inv(s) && b < |s.descs|
    ensures |Operate(s, b, op).list| == |s.list| && Operate(s, b, op).descs == s.descs
  {
  }

  lemma SameNr(s: State, b: nat, op: Operation, i: nat)
    requires Inv(s) && b < |s.descs| && i < |s.list|
    ensures |Operate(s, b, op).list| == |s.list| && Operate(s, b, op).list[i].nr == s.list[i].nr
  {
    hide Owned, DriverOk, OnLinks;
    OwnedLinksAreValid(s, b);
    OperationOnLinks(s.list, s.descs[b].links, |s.descs[b].links|, op);
    assert SameShape(s.list[i], OnLinks(s.list, s.descs[b].links, |s.descs[b].links|, op)[i]);
  }

  lemma StepKeepsIdle(s: State, e: Event, answers: Answers, c: nat)
    requires Inv(s) && Allowed(s, e, answers) && Idle(s, c) && e != Activate(c, true)
    ensures Idle(Apply(s, e, answers), c)
  {
    hide Operate, Inv, InitLinks;
    match e
    case Register(sensor, kind) =>
    case Init(b) =>
      var s' := Apply(s, e, answers);
      InitKeepsLength(s, b, answers);
      forall i, j | 0 <= i < |s'.list| && 0 <= j < s'.list[i].nr && s'.list[i].slots[j].api == Some(c)
        ensures ACTIVE !in s'.list[i].slots[j].status
      {
        InitAddsQuietSlots(s, b, -1, answers, i, j);
      }
    case Activate(b, enable) => OperateKeepsIdle(s, b, OpActivate(enable), c);
    case SetDelay(b, ns) => OperateKeepsIdle(s, b, OpSetDelay(ns), c);
    case Close(b) => OperateKeepsIdle(s, b, OpClose, c);
  }

  lemma InitKeepsLength(s: State, c: nat, answers: Answers)
    requires Inv(s) && Allowed(s, Init(c), answers)
    ensures |Apply(s, Init(c), answers).list| == |s.list|
  {
    if s.list != [] {
      InitAddsQuietSlots(s, c, -1, answers, 0, 0);
    } else {
      var d := s.descs[c];
      MatchesAreWanted(s, c);
      if |d.links| < |d.wanted| {
        InitContinues(s.list, d.wanted, d.links, c, -1, answers, Pick(s.list, d.wanted[|d.links|], 0, -1, answers));
      }
    }
  }

  /** Main result: once a client was disabled, and until it is enabled again, no driver passes it data. */
  lemma NoDataWhileDisabled(states: seq<State>, events: seq<Event>, answers: Answers, m: nat, n: nat, c: nat, i: nat)
    requires IsRun(states, events, answers) && m < n <= |events|
    requires events[m] == Activate(c, false)
    requires forall k :: m < k < n ==> events[k] != Activate(c, true)
    requires i < |states[n].list|
    ensures c !in Receivers(states[n].list[i], states[n].descs, states[n].list[i].nr)
  {
    hide Inv, Apply, IsRun, Allowed;
    RunStep(states, events, answers, m);
    StaysIdle(states, events, answers, m, n, c);
    ReceiversAreActive(states[n].list[i], states[n].descs, states[n].list[i].nr, c);
  }

  lemma RunStep(states: seq<State>, events: seq<Event>, answers: Answers, k: nat)
    requires IsRun(states, events, answers) && k < |events|
    ensures |states| == |events| + 1
    ensures Inv(states[k]) && Allowed(states[k], events[k], answers)
    ensures states[k + 1] == Apply(states[k], events[k], answers)
  {
    hide Inv, Apply, Allowed, AllExact;
    RunKeepsInv(states, events, answers, k);
    assert LeadsTo(states[k], events[k], states[k + 1], answers);
  }

  lemma {:induction false} StaysIdle(states: seq<State>, events: seq<Event>, answers: Answers, m: nat, n: nat, c: nat)
    requires IsRun(states, events, answers) && m < n <= |events|
    requires events[m] == Activate(c, false)
    requires forall k :: m < k < n ==> events[k] != Activate(c, true)
    ensures Idle(states[n], c)
    decreases n
  {
    hide Inv, IsRun, Idle, Operate;
    RunStep(states, events, answers, n - 1);
    if n == m + 1 {
      OperateKeepsIdle(states[m], c, OpActivate(false), c);
    } else {
      StaysIdle(states, events, answers, m, n - 1, c);
      hide Apply;
      StepKeepsIdle(states[n - 1], events[n - 1], answers, c);
    }
  }
}
