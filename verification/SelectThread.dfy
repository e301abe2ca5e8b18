/** The select threads and their controllers (sensors_select.c, sensors_worker.c, sensors_wrapper.c) as interleaved
  steps. There are any number of select objects, each with a mutex for its descriptor, a mutex for its worker's mode and
  a thread that waits for data and runs the callback; one wrapper mutex serves them all. Any number of other threads
  enable and disable clients, make other calls of the wrapper, or call drivers directly. */
module SelectThread {
  import opened Options

  /** `wrapper_mutex`; and of select object o the `fd_mutex`, and the `mode_mutex` of its worker. */
  datatype Mutex = WRAPPER | FD(o: nat) | MODE(o: nat)

  /** The operations on select object o. */
  datatype Op =
    | Lock(m: Mutex)
    | Unlock(m: Mutex)
    | ReadMode(o: nat)                          // the worker looks whether it should run
    | AwaitSignal                               // pthread_cond_wait, the mutex released
    | Snapshot(o: nat)                          // the callback copies s->fd
    | Select(o: nat)                            // select() returns
    | Recheck(o: nat)                           // s->fd is compared with the copy
    | Deliver(o: nat)                           // the driver's callback passes data to its active clients
    | Arbitrate(o: nat, client: nat, on: bool)  // sensors_wrapper_activate updates the client's slot on the driver
    | Open                                      // a driver opens the device
    | SetFd(o: nat, use: bool)                  // the old descriptor is closed, the opened one or -1 is stored
    | SetMode(o: nat, run: bool)                // the worker is resumed or suspended

  /** What a call of sensors_wrapper_activate has done: the client's slots on these drivers are enabled or disabled. */
  datatype Call = Call(client: nat, on: bool, drivers: set<nat>)

  /** What a thread still has to do, its copy of s->fd, a descriptor it opened and did not store yet, and what its
    current call has done. */
  datatype Thread = Thread(prog: seq<Op>, snap: int, newFd: Option<nat>, call: Option<Call>)

  /** Who holds each mutex. */
  datatype Owners = Owners(holders: map<Mutex, nat>) {
    function Of(m: Mutex): Option<nat> {
      if m in holders then Some(holders[m]) else None
    }

    function Give(m: Mutex, to: Option<nat>): Owners {
      if to.Some? then Owners(holders[m := to.value]) else Owners(holders - {m})
    }

    /** The mutexes thread t holds. */
    function Held(t: nat): set<Mutex> {
      set m | m in holders && holders[m] == t
    }
  }

  /** The mutexes, the descriptors stored in the select objects (-1 when there is none), the open descriptors, the
    active slots (driver, client), the objects whose workers run, and the threads; the first ones are the workers of
    the objects with the same numbers. */
  datatype State = State(owner: Owners, fds: map<nat, int>, open: set<nat>, active: set<(nat, nat)>, running: set<nat>,
                         workers: nat, threads: seq<Thread>)

  function FdOf(fds: map<nat, int>, o: nat): int {
    if o in fds then fds[o] else -1
  }

  // ---- programs ----

  /** An update of a select object under the mutex for it. */
  predicate IsSection(p: seq<Op>) {
    && |p| == 3 && (p[1].SetFd? || p[1].SetMode?)
    && var m := if p[1].SetFd? then FD(p[1].o) else MODE(p[1].o);
       p[0] == Lock(m) && p[2] == Unlock(m)
  }

  /** Calls a driver makes in activate: opening, storing a descriptor, resuming or suspending, in any order. */
  predicate IsDriverProgram(p: seq<Op>)
    decreases |p|
  {
    || p == []
    || (|p| >= 4 && p[0] == Open && IsSection(p[1..4]) && p[2].SetFd? && p[2].use && IsDriverProgram(p[4..]))
    || (|p| >= 3 && IsSection(p[..3]) && (p[1].SetFd? ==> !p[1].use) && IsDriverProgram(p[3..]))
  }

  /** The updates of a client's slots on some drivers. */
  function Arbitrations(drivers: seq<nat>, client: nat, on: bool): seq<Op> {
    if drivers == [] then [] else [Arbitrate(drivers[0], client, on)] + Arbitrations(drivers[1..], client, on)
  }

  /** `sensors_wrapper_activate` for a client that is attached to some drivers. */
  function ActivateProgram(drivers: seq<nat>, client: nat, on: bool): seq<Op> {
    [Lock(WRAPPER)] + Arbitrations(drivers, client, on) + [Unlock(WRAPPER)]
  }

  /** `sensors_wrapper_init`, `sensors_wrapper_set_delay`, `sensors_wrapper_close` and `sensors_wrapper_register`:
    driver calls under the wrapper mutex. */
  function WrapperProgram(driver: seq<Op>): seq<Op> {
    [Lock(WRAPPER)] + driver + [Unlock(WRAPPER)]
  }

  /** What thread t may start: a worker a turn of its loop, another thread a call of the wrapper or of a driver. */
  ghost predicate IsProgram(workers: nat, t: nat, p: seq<Op>) {
    if t < workers then p == Worker(t) else
    || IsDriverProgram(p)
    || (exists drivers, client, on :: p == ActivateProgram(drivers, client, on))
    || (exists driver :: IsDriverProgram(driver) && p == WrapperProgram(driver))
  }

  /** One turn of the worker loop, up to the mode decision. */
  function Worker(o: nat): seq<Op> {
    [Lock(MODE(o)), ReadMode(o)]
  }

  function Sleep(o: nat): seq<Op> {
    [Unlock(MODE(o)), Lock(MODE(o)), Unlock(MODE(o)), AwaitSignal, Lock(MODE(o)), Unlock(MODE(o))]
  }

  /** `sensors_select_callback`, up to the return of select. */
  function Callback(o: nat): seq<Op> {
    [Unlock(MODE(o)), Lock(FD(o)), Snapshot(o), Unlock(FD(o)), Select(o)]
  }

  function DataReady(o: nat): seq<Op> {
    [Lock(WRAPPER), Lock(FD(o)), Recheck(o), Unlock(FD(o)), Unlock(WRAPPER)]
  }

  /** What a step may choose: the driver's program, a new descriptor, whether there is data. */
  datatype Choice = Choice(program: seq<Op>, number: nat, ready: bool)

  // ---- steps ----

  predicate Blocked(s: State, t: nat)
    requires t < |s.threads|
  {
    var p := s.threads[t].prog;
    p != [] && p[0].Lock? && s.owner.Of(p[0].m) != None
  }

  function WithThread(s: State, t: nat, th: Thread): State
    requires t < |s.threads|
  {
    s.(threads := s.threads[t := th])
  }

  /** The clients that are active on a driver. */
  function ActiveOn(active: set<(nat, nat)>, o: nat): set<nat> {
    set a | a in active && a.0 == o :: a.1
  }

  /** What is left of the program of a thread after its next operation. */
  function Continuation(s: State, th: Thread, c: Choice): seq<Op>
    requires th.prog != []
  {
    var rest := th.prog[1..];
    match th.prog[0]
    case ReadMode(o) => if o in s.running then Callback(o) else Sleep(o)
    case Select(o) => if c.ready && th.snap >= 0 then DataReady(o) else []
    case Recheck(o) => if FdOf(s.fds, o) == th.snap then [Deliver(o)] + rest else rest
    case Arbitrate(o, client, on) =>
      var active := ActiveOn(s.active, o);
      if (if on then active == {} else active - {client} == {}) then c.program + rest else rest
    case _ => rest
  }

  /** What the call of a thread has done after it updated one more slot. */
  function Extended(call: Option<Call>, o: nat, client: nat, on: bool): Call {
    if call.Some? && call.value.client == client && call.value.on == on then
      call.value.(drivers := call.value.drivers + {o})
    else
      Call(client, on, {o})
  }

  /** The effect of the next operation of thread t. */
  function Execute(s: State, t: nat, c: Choice): State
    requires t < |s.threads| && s.threads[t].prog != []
  {
    var op := s.threads[t].prog[0];
    var th := s.threads[t].(prog := Continuation(s, s.threads[t], c));
    match op
    case Lock(m) => WithThread(s, t, th).(owner := s.owner.Give(m, Some(t)))
    case Unlock(m) => WithThread(s, t, if m == WRAPPER then th.(call := None) else th).(owner := s.owner.Give(m, None))
    case Snapshot(o) => WithThread(s, t, th.(snap := FdOf(s.fds, o)))
    case Arbitrate(o, client, on) =>
      WithThread(s, t, th.(call := Some(Extended(th.call, o, client, on))))
        .(active := if on then s.active + {(o, client)} else s.active - {(o, client)})
    case Open => WithThread(s, t, th.(newFd := Some(c.number))).(open := s.open + {c.number})
    case SetFd(o, use) =>
      var fd := if use && th.newFd.Some? then th.newFd.value else -1;
      var closed := FdOf(s.fds, o);
      WithThread(s, t, if use then th.(newFd := None) else th)
        .(fds := s.fds[o := fd], open := if closed > 0 then s.open - {closed} else s.open)
    case SetMode(o, run) =>
      WithThread(s, t, th).(running := if run then s.running + {o} else s.running - {o})
    case _ => WithThread(s, t, th)
  }

  ghost predicate ChoiceOk(s: State, t: nat, c: Choice)
    requires t < |s.threads|
  {
    && IsDriverProgram(c.program)
    && c.number !in s.open
  }

  /** Thread t takes a step: it starts a new piece of work when it has none, else it executes its next operation,
    unless that is to lock a mutex that is held. */
  ghost predicate Next(s: State, t: nat, c: Choice, s': State) {
    && t < |s.threads| && ChoiceOk(s, t, c)
    && if s.threads[t].prog == [] then
         exists p :: IsProgram(s.workers, t, p) && s' == WithThread(s, t, s.threads[t].(prog := p))
       else !Blocked(s, t) && s' == Execute(s, t, c)
  }

  ghost predicate Init(s: State) {
    && s.owner == Owners(map[])
    && s.fds == map[] && s.active == {} && s.workers <= |s.threads|
    && forall t :: 0 <= t < |s.threads| ==>
         s.threads[t].prog == [] && s.threads[t].newFd == None && s.threads[t].call == None
  }

  // ---- the lock discipline ----

  function Rank(m: Mutex): nat {
    if m == WRAPPER then 0 else 1
  }

  /** The mutexes that an operation other than locking needs, when others follow it. */
  predicate HasNeeded(op: Op, held: set<Mutex>) {
    match op
    case Open => true
    case AwaitSignal => held == {}
    case Snapshot(o) => FD(o) in held
    case SetFd(o, _) => FD(o) in held
    case SetMode(o, _) => MODE(o) in held
    case Recheck(o) => held == {WRAPPER, FD(o)}
    case Deliver(o) => held == {WRAPPER, FD(o)}
    case Arbitrate(_, _, _) => held == {WRAPPER}
    case _ => false
  }

  /** The program takes mutexes in rank order, releases what it takes, and has the mutexes each operation needs. */
  predicate WellLocked(p: seq<Op>, held: set<Mutex>) {
    if p == [] then held == {} else
    match p[0]
    case Lock(m) => m !in held && (forall h :: h in held ==> Rank(h) < Rank(m)) && WellLocked(p[1..], held + {m})
    case Unlock(m) => m in held && WellLocked(p[1..], held - {m})
    case ReadMode(o) => held == {MODE(o)} && p == [ReadMode(o)]
    case Select(o) => held == {} && p == [Select(o)]
    case _ => HasNeeded(p[0], held) && WellLocked(p[1..], held)
  }

  ghost predicate Disciplined(s: State) {
    && (forall m: Mutex :: s.owner.Of(m).Some? ==> s.owner.Of(m).value < |s.threads|)
    && forall t :: 0 <= t < |s.threads| ==> WellLocked(s.threads[t].prog, s.owner.Held(t))
  }

  lemma HeldAfterGive(o: Owners, m: Mutex, t: nat, u: nat)
    requires t != u
    ensures o.Of(m) == None ==> o.Give(m, Some(t)).Held(t) == o.Held(t) + {m} && o.Give(m, Some(t)).Held(u) == o.Held(u)
    ensures o.Of(m) == Some(t) ==> o.Give(m, None).Held(t) == o.Held(t) - {m} && o.Give(m, None).Held(u) == o.Held(u)
    ensures m in o.Held(t) <==> o.Of(m) == Some(t)
  {
  }

  lemma PrependLock(m: Mutex, rest: seq<Op>, held: set<Mutex>)
    requires m !in held && (forall h :: h in held ==> Rank(h) < Rank(m)) && WellLocked(rest, held + {m})
    ensures WellLocked([Lock(m)] + rest, held)
  {
    assert ([Lock(m)] + rest)[1..] == rest;
  }

  lemma PrependUnlock(m: Mutex, rest: seq<Op>, held: set<Mutex>)
    requires m in held && WellLocked(rest, held - {m})
    ensures WellLocked([Unlock(m)] + rest, held)
  {
    assert ([Unlock(m)] + rest)[1..] == rest;
  }

  /** An operation that takes no mutex and only needs to hold some. */
  lemma PrependPlain(op: Op, rest: seq<Op>, held: set<Mutex>)
    requires WellLocked(rest, held) && HasNeeded(op, held)
    ensures WellLocked([op] + rest, held)
  {
    assert ([op] + rest)[1..] == rest;
  }

  /** A driver that takes an inner mutex, does one thing, and gives it back. */
  lemma SectionWellLocked(m: Mutex, op: Op, rest: seq<Op>, held: set<Mutex>)
    requires held <= {WRAPPER} && WellLocked(rest, held)
    requires ((op.SetFd? || op.Snapshot?) && m == FD(op.o)) || (op.SetMode? && m == MODE(op.o))
    ensures WellLocked([Lock(m), op, Unlock(m)] + rest, held)
  {
    hide WellLocked;
    assert held + {m} - {m} == held;
    PrependUnlock(m, rest, held + {m});
    PrependPlain(op, [Unlock(m)] + rest, held + {m});
    PrependLock(m, [op] + ([Unlock(m)] + rest), held);
    assert [Lock(m)] + ([op] + ([Unlock(m)] + rest)) == [Lock(m), op, Unlock(m)] + rest;
  }

  lemma DriverProgramWellLocked(p: seq<Op>, rest: seq<Op>, held: set<Mutex>)
    requires IsDriverProgram(p) && held <= {WRAPPER} && WellLocked(rest, held)
    ensures WellLocked(p + rest, held)
    decreases |p|
  {
    hide WellLocked;
    if p == [] {
      assert p + rest == rest;
    } else if p[0] == Open {
      DriverProgramWellLocked(p[4..], rest, held);
      var section := [Lock(p[1].m), p[2], Unlock(p[1].m)];
      assert section == p[1..4];
      SectionWellLocked(p[1].m, p[2], p[4..] + rest, held);
      PrependPlain(Open, section + (p[4..] + rest), held);
      assert p + rest == [Open] + (section + (p[4..] + rest));
    } else {
      DriverProgramWellLocked(p[3..], rest, held);
      SectionWellLocked(p[0].m, p[1], p[3..] + rest, held);
      assert p + rest == [Lock(p[0].m), p[1], Unlock(p[0].m)] + (p[3..] + rest);
    }
  }

  lemma SleepWellLocked(o: nat)
    ensures WellLocked(Sleep(o), {MODE(o)})
  {
    hide WellLocked;
    EmptyWellLocked();
    var mode := MODE(o);
    assert {mode} - {mode} == {} && {} + {mode} == {mode};
    var p0 := [Unlock(mode)] + [];
    PrependUnlock(mode, [], {mode});
    PrependLock(mode, p0, {});
    PrependPlain(AwaitSignal, [Lock(mode)] + p0, {});
    var p1 := [AwaitSignal] + ([Lock(mode)] + p0);
    PrependUnlock(mode, p1, {mode});
    PrependLock(mode, [Unlock(mode)] + p1, {});
    PrependUnlock(mode, [Lock(mode)] + ([Unlock(mode)] + p1), {mode});
    assert Sleep(o) == [Unlock(mode)] + ([Lock(mode)] + ([Unlock(mode)] + p1));
  }

  lemma CallbackWellLocked(o: nat)
    ensures WellLocked(Callback(o), {MODE(o)})
  {
    assert WellLocked([Select(o)], {});
    hide WellLocked;
    var mode, fd := MODE(o), FD(o);
    assert {mode} - {mode} == {};
    SectionWellLocked(fd, Snapshot(o), [Select(o)], {});
    PrependUnlock(mode, [Lock(fd), Snapshot(o), Unlock(fd)] + [Select(o)], {mode});
    assert Callback(o) == [Unlock(mode)] + ([Lock(fd), Snapshot(o), Unlock(fd)] + [Select(o)]);
  }

  lemma DataReadyWellLocked(o: nat)
    ensures WellLocked(DataReady(o), {})
  {
    hide WellLocked;
    UnlockWellLocked();
    var fd := FD(o);
    assert {WRAPPER, fd} - {fd} == {WRAPPER} && {WRAPPER} + {fd} == {WRAPPER, fd} && {} + {WRAPPER} == {WRAPPER};
    var p := [Unlock(fd)] + [Unlock(WRAPPER)];
    PrependUnlock(fd, [Unlock(WRAPPER)], {WRAPPER, fd});
    PrependPlain(Recheck(o), p, {WRAPPER, fd});
    PrependLock(fd, [Recheck(o)] + p, {WRAPPER});
    PrependLock(WRAPPER, [Lock(fd)] + ([Recheck(o)] + p), {});
    assert DataReady(o) == [Lock(WRAPPER)] + ([Lock(fd)] + ([Recheck(o)] + p));
  }

  lemma {:induction false} ArbitrationsWellLocked(drivers: seq<nat>, client: nat, on: bool)
    ensures WellLocked(Arbitrations(drivers, client, on) + [Unlock(WRAPPER)], {WRAPPER})
  {
    hide WellLocked;
    var unlock := [Unlock(WRAPPER)];
    if drivers == [] {
      UnlockWellLocked();
      assert [] + unlock == unlock;
    } else {
      var rest := Arbitrations(drivers[1..], client, on);
      ArbitrationsWellLocked(drivers[1..], client, on);
      PrependPlain(Arbitrate(drivers[0], client, on), rest + unlock, {WRAPPER});
      var first := [Arbitrate(drivers[0], client, on)];
      assert first + rest + unlock == first + (rest + unlock);
    }
  }

  lemma ActivateWellLocked(drivers: seq<nat>, client: nat, on: bool)
    ensures WellLocked(ActivateProgram(drivers, client, on), {})
  {
    hide WellLocked;
    var p := Arbitrations(drivers, client, on);
    ArbitrationsWellLocked(drivers, client, on);
    assert {} + {WRAPPER} == {WRAPPER};
    PrependLock(WRAPPER, p + [Unlock(WRAPPER)], {});
    assert ActivateProgram(drivers, client, on) == [Lock(WRAPPER)] + (p + [Unlock(WRAPPER)]);
  }

  lemma WrapperWellLocked(driver: seq<Op>)
    requires IsDriverProgram(driver)
    ensures WellLocked(WrapperProgram(driver), {})
  {
    hide WellLocked;
    UnlockWellLocked();
    DriverProgramWellLocked(driver, [Unlock(WRAPPER)], {WRAPPER});
    assert {} + {WRAPPER} == {WRAPPER};
    PrependLock(WRAPPER, driver + [Unlock(WRAPPER)], {});
    assert WrapperProgram(driver) == [Lock(WRAPPER)] + (driver + [Unlock(WRAPPER)]);
  }

  lemma WorkerWellLocked(o: nat)
    ensures WellLocked(Worker(o), {})
  {
    assert WellLocked([ReadMode(o)], {MODE(o)});
    hide WellLocked;
    assert {} + {MODE(o)} == {MODE(o)};
    PrependLock(MODE(o), [ReadMode(o)], {});
    assert Worker(o) == [Lock(MODE(o))] + [ReadMode(o)];
  }

  lemma UnlockWellLocked()
    ensures WellLocked([Unlock(WRAPPER)], {WRAPPER})
  {
    assert [Unlock(WRAPPER)][1..] == [];
  }

  /** The mutexes held after an operation. */
  function HeldAfter(op: Op, held: set<Mutex>): set<Mutex> {
    match op
    case Lock(m) => held + {m}
    case Unlock(m) => held - {m}
    case _ => held
  }

  lemma ContinuationWellLocked(s: State, th: Thread, c: Choice, held: set<Mutex>)
    requires th.prog != [] && WellLocked(th.prog, held) && IsDriverProgram(c.program)
    ensures WellLocked(Continuation(s, th, c), HeldAfter(th.prog[0], held))
  {
    hide WellLocked;
    var op, rest := th.prog[0], th.prog[1..];
    HeadFacts(th.prog, held);
    match op
    case ReadMode(o) =>
      CallbackWellLocked(o);
      SleepWellLocked(o);
    case Select(o) =>
      DataReadyWellLocked(o);
    case Arbitrate(o, client, on) =>
      DriverProgramWellLocked(c.program, rest, {WRAPPER});
    case Recheck(o) =>
      PrependPlain(Deliver(o), rest, held);
    case _ =>
  }

  lemma HeadFacts(p: seq<Op>, held: set<Mutex>)
    requires p != [] && WellLocked(p, held)
    ensures p[0].ReadMode? ==> held == {MODE(p[0].o)}
    ensures p[0].Select? ==> held == {} && WellLocked([], held)
    ensures p[0].Recheck? || p[0].Deliver? ==> held == {WRAPPER, FD(p[0].o)}
    ensures p[0].Arbitrate? ==> held == {WRAPPER}
    ensures p[0].SetFd? ==> FD(p[0].o) in held
    ensures !p[0].ReadMode? && !p[0].Select? ==> WellLocked(p[1..], HeldAfter(p[0], held))
  {
    UnlockWellLocked();
  }

  lemma StartWellLocked(workers: nat, t: nat, p: seq<Op>)
    requires IsProgram(workers, t, p)
    ensures WellLocked(p, {})
  {
    hide WellLocked;
    if t < workers {
      WorkerWellLocked(t);
    } else if IsDriverProgram(p) {
      EmptyWellLocked();
      DriverProgramWellLocked(p, [], {});
      assert p + [] == p;
    } else if drivers, client, on :| p == ActivateProgram(drivers, client, on) {
      ActivateWellLocked(drivers, client, on);
    } else {
      var driver :| IsDriverProgram(driver) && p == WrapperProgram(driver);
      WrapperWellLocked(driver);
    }
  }

  lemma EmptyWellLocked()
    ensures WellLocked([], {})
  {
  }

  lemma LockFacts(p: seq<Op>, held: set<Mutex>)
    requires WellLocked(p, held)
    ensures p == [] ==> held == {}
    ensures p != [] && p[0].Unlock? ==> p[0].m in held
    ensures p != [] && p[0].Lock? ==> p[0].m !in held
  {
  }

  /** What a step does to the owners. */
  lemma OwnersAfterStep(s: State, t: nat, c: Choice, s': State, u: nat)
    requires Disciplined(s) && Next(s, t, c, s') && u != t
    ensures |s'.threads| == |s.threads|
    ensures s'.owner.Held(u) == s.owner.Held(u) && (u < |s.threads| ==> s'.threads[u] == s.threads[u])
    ensures s.threads[t].prog != [] ==> s'.owner.Held(t) == HeldAfter(s.threads[t].prog[0], s.owner.Held(t))
    ensures s.threads[t].prog == [] ==> s'.owner == s.owner
    ensures forall m: Mutex :: s'.owner.Of(m) == s.owner.Of(m) || s'.owner.Of(m) == None || s'.owner.Of(m) == Some(t)
  {
    hide WellLocked, Continuation;
    var p := s.threads[t].prog;
    LockFacts(p, s.owner.Held(t));
    if p != [] && (p[0].Lock? || p[0].Unlock?) {
      HeldAfterGive(s.owner, p[0].m, t, u);
    }
  }

  lemma OwnProgramAfterStep(s: State, t: nat, c: Choice, s': State)
    requires Disciplined(s) && Next(s, t, c, s')
    ensures |s'.threads| == |s.threads| && WellLocked(s'.threads[t].prog, s'.owner.Held(t))
  {
    var th := s.threads[t];
    var held := s.owner.Held(t);
    assert WellLocked(th.prog, held);
    OwnersAfterStep(s, t, c, s', t + 1);
    hide WellLocked, Continuation, Disciplined;
    LockFacts(th.prog, held);
    if th.prog == [] {
      var p :| IsProgram(s.workers, t, p) && s' == WithThread(s, t, s.threads[t].(prog := p));
      StartWellLocked(s.workers, t, p);
    } else {
      ContinuationWellLocked(s, th, c, held);
    }
  }

  /** Every step of every thread keeps the lock discipline. */
  lemma StepKeepsDiscipline(s: State, t: nat, c: Choice, s': State)
    requires Disciplined(s) && Next(s, t, c, s')
    ensures Disciplined(s')
  {
    hide WellLocked, Next;
    OwnersAfterStep(s, t, c, s', t + 1);
    OwnProgramAfterStep(s, t, c, s');
    forall u | 0 <= u < |s.threads|
      ensures WellLocked(s'.threads[u].prog, s'.owner.Held(u))
    {
      if u != t {
        assert WellLocked(s.threads[u].prog, s.owner.Held(u));
        OwnersAfterStep(s, t, c, s', u);
      }
    }
    NextThreadExists(s, t, c, s');
  }

  lemma NextThreadExists(s: State, t: nat, c: Choice, s': State)
    requires Next(s, t, c, s')
    ensures t < |s.threads|
  {
  }

  lemma NextLockIsInner(p: seq<Op>, held: set<Mutex>, h: Mutex, m: Mutex)
    requires WellLocked(p, held) && h in held && p != [] && p[0] == Lock(m)
    ensures h == WRAPPER && m != WRAPPER
  {
    assert Rank(h) < Rank(m);
  }

  lemma HolderHasWork(p: seq<Op>, held: set<Mutex>)
    requires WellLocked(p, held) && held != {}
    ensures p != [] && !p[0].Select? && p[0] != AwaitSignal
  {
  }

  /** Main result: whenever a thread waits for a mutex that is held, some holder of a mutex can take its next step,
    and that step waits neither for a mutex, nor for data, nor for a signal. */
  lemma NoMutexDeadlock(s: State, t: nat)
    requires Disciplined(s) && t < |s.threads| && Blocked(s, t)
    ensures exists v :: 0 <= v < |s.threads| && s.owner.Held(v) != {} && !Blocked(s, v) && s.threads[v].prog != []
                        && !s.threads[v].prog[0].Select? && s.threads[v].prog[0] != AwaitSignal
  {
    hide WellLocked;
    var m := s.threads[t].prog[0].m;
    var u := s.owner.Of(m).value;
    assert m in s.owner.Held(u) && WellLocked(s.threads[u].prog, s.owner.Held(u));
    HolderHasWork(s.threads[u].prog, s.owner.Held(u));
    if Blocked(s, u) {
      var k := s.threads[u].prog[0].m;
      NextLockIsInner(s.threads[u].prog, s.owner.Held(u), m, k);
      var v := s.owner.Of(k).value;
      assert k in s.owner.Held(v) && WellLocked(s.threads[v].prog, s.owner.Held(v));
      HolderHasWork(s.threads[v].prog, s.owner.Held(v));
      if Blocked(s, v) {
        NextLockIsInner(s.threads[v].prog, s.owner.Held(v), k, s.threads[v].prog[0].m);
        assert false;
      }
    }
  }

  // ---- descriptors ----

  /** The stored descriptors are open, and so is every descriptor that a thread opened and did not store yet; no two
    of them are the same. */
  ghost predicate DescriptorsOk(s: State) {
    && (forall o: nat :: FdOf(s.fds, o) >= -1 && (FdOf(s.fds, o) >= 0 ==> FdOf(s.fds, o) in s.open))
    && (forall o: nat, o': nat :: o != o' && FdOf(s.fds, o) >= 0 ==> FdOf(s.fds, o) != FdOf(s.fds, o'))
    && (forall t :: 0 <= t < |s.threads| && s.threads[t].newFd.Some? ==> s.threads[t].newFd.value in s.open)
    && (forall t, o: nat :: 0 <= t < |s.threads| && s.threads[t].newFd.Some? ==>
          s.threads[t].newFd.value != FdOf(s.fds, o))
    && forall t, u :: 0 <= t < u < |s.threads| && s.threads[t].newFd.Some? && s.threads[u].newFd.Some? ==>
         s.threads[t].newFd != s.threads[u].newFd
  }

  lemma StepKeepsDescriptors(s: State, t: nat, c: Choice, s': State)
    requires DescriptorsOk(s) && Next(s, t, c, s')
    ensures DescriptorsOk(s')
  {
    hide Continuation, IsProgram, IsDriverProgram;
    if s.threads[t].prog != [] {
      match s.threads[t].prog[0]
      case Open => OpenKeepsDescriptors(s, t, c);
      case SetFd(o, use) => SetFdKeepsDescriptors(s, t, c);
      case _ => assert SameDescriptors(s, s');
    }
  }

  ghost predicate SameDescriptors(s: State, s': State) {
    && s'.fds == s.fds && s'.open == s.open && |s'.threads| == |s.threads|
    && forall t :: 0 <= t < |s.threads| ==> s'.threads[t].newFd == s.threads[t].newFd
  }

  lemma OpenKeepsDescriptors(s: State, t: nat, c: Choice)
    requires DescriptorsOk(s) && t < |s.threads| && s.threads[t].prog != [] && s.threads[t].prog[0].Open?
    requires c.number !in s.open
    ensures DescriptorsOk(Execute(s, t, c))
  {
    hide Continuation;
  }

  lemma SetFdKeepsDescriptors(s: State, t: nat, c: Choice)
    requires DescriptorsOk(s) && t < |s.threads| && s.threads[t].prog != [] && s.threads[t].prog[0].SetFd?
    ensures DescriptorsOk(Execute(s, t, c))
  {
    hide Continuation;
    var s', o, th := Execute(s, t, c), s.threads[t].prog[0].o, s.threads[t];
    var fd := if s.threads[t].prog[0].use && th.newFd.Some? then th.newFd.value else -1;
    assert forall k: nat :: FdOf(s'.fds, k) == if k == o then fd else FdOf(s.fds, k);
    hide FdOf, Execute;
  }

  // ---- the callback ----

  predicate IsCallback(op: Op) {
    op.Recheck? || op.Deliver?
  }

  /** What a thread may still do about the callback: recheck and deliver only after a valid descriptor was waited on,
    and deliver only as its next operation, while s->fd is that descriptor. */
  ghost predicate CallbackThread(p: seq<Op>, snap: int, fds: map<nat, int>) {
    && (forall op :: op in p && IsCallback(op) ==> snap >= 0)
    && (forall op, k: nat :: op in p && Snapshot(k) in p ==> !IsCallback(op))
    && (forall k: nat :: p != [] ==> Deliver(k) !in p[1..])
    && (p != [] && p[0].Deliver? ==> FdOf(fds, p[0].o) == snap)
  }

  ghost predicate CallbackOk(s: State) {
    forall t :: 0 <= t < |s.threads| ==> CallbackThread(s.threads[t].prog, s.threads[t].snap, s.fds)
  }

  /** The program has nothing to do with a callback. */
  ghost predicate NoCallback(p: seq<Op>) {
    forall op :: op in p ==> !IsCallback(op) && !op.Snapshot?
  }

  lemma NoCallbackNeedsNothing(p: seq<Op>, snap: int, fds: map<nat, int>)
    requires NoCallback(p)
    ensures CallbackThread(p, snap, fds)
  {
    forall k: nat | p != []
      ensures Deliver(k) !in p[1..]
    {
      assert Deliver(k) in p[1..] ==> Deliver(k) in p;
    }
    assert p != [] ==> p[0] in p;
  }

  lemma DriverProgramHasNoCallback(p: seq<Op>)
    requires IsDriverProgram(p)
    ensures NoCallback(p)
    decreases |p|
  {
    if p == [] {
    } else {
      var n := if p[0] == Open then 4 else 3;
      DriverProgramHasNoCallback(p[n..]);
      assert p == p[..n] + p[n..];
    }
  }

  lemma {:induction false} ArbitrationsHaveNoCallback(drivers: seq<nat>, client: nat, on: bool)
    ensures NoCallback(Arbitrations(drivers, client, on))
  {
    if drivers == [] {
    } else {
      ArbitrationsHaveNoCallback(drivers[1..], client, on);
    }
  }

  lemma NewProgramHasNoCallback(workers: nat, t: nat, p: seq<Op>)
    requires IsProgram(workers, t, p)
    ensures NoCallback(p)
  {
    hide IsDriverProgram;
    if t < workers {
    } else if IsDriverProgram(p) {
      DriverProgramHasNoCallback(p);
    } else if drivers, client, on :| p == ActivateProgram(drivers, client, on) {
      ArbitrationsHaveNoCallback(drivers, client, on);
    } else {
      var driver :| IsDriverProgram(driver) && p == WrapperProgram(driver);
      DriverProgramHasNoCallback(driver);
    }
  }

  /** Two threads cannot both hold the descriptor mutex. */
  lemma OnlyHolderStoresFd(s: State, t: nat, u: nat)
    requires Disciplined(s) && t < |s.threads| && u < |s.threads| && t != u
    requires s.threads[t].prog != [] && s.threads[t].prog[0].Deliver?
    ensures var p := s.threads[u].prog; p != [] && p[0].SetFd? ==> p[0].o != s.threads[t].prog[0].o
  {
    hide WellLocked;
    assert WellLocked(s.threads[t].prog, s.owner.Held(t)) && WellLocked(s.threads[u].prog, s.owner.Held(u));
    HeadFacts(s.threads[t].prog, s.owner.Held(t));
    if s.threads[u].prog != [] {
      HeadFacts(s.threads[u].prog, s.owner.Held(u));
    }
  }

  /** Main result: while a callback is about to deliver, the thread holds both mutexes, s->fd is the descriptor it
    waited on, and that descriptor is open; no step of any other thread changes or closes it. */
  lemma CallbackDescriptorIsStable(s: State, t: nat)
    requires Disciplined(s) && DescriptorsOk(s) && CallbackOk(s)
    requires t < |s.threads| && s.threads[t].prog != [] && s.threads[t].prog[0].Deliver?
    ensures var o := s.threads[t].prog[0].o;
            var fd := FdOf(s.fds, o);
            && s.owner.Held(t) == {WRAPPER, FD(o)}
            && fd == s.threads[t].snap && fd >= 0 && fd in s.open
            && forall u, c, s' :: u != t && Next(s, u, c, s') ==> FdOf(s'.fds, o) == fd && fd in s'.open
  {
    hide WellLocked, Continuation, IsProgram, IsDriverProgram;
    assert WellLocked(s.threads[t].prog, s.owner.Held(t));
    HeadFacts(s.threads[t].prog, s.owner.Held(t));
    var o := s.threads[t].prog[0].o;
    assert Deliver(o) in s.threads[t].prog && IsCallback(Deliver(o));
    forall u, c, s' | u != t && Next(s, u, c, s')
      ensures FdOf(s'.fds, o) == FdOf(s.fds, o) && FdOf(s.fds, o) in s'.open
    {
      OnlyHolderStoresFd(s, t, u);
    }
  }

  /** What follows an operation of a thread; no delivery comes next. */
  lemma RestContinues(p: seq<Op>, snap: int, fds: map<nat, int>)
    requires CallbackThread(p, snap, fds) && p != []
    ensures CallbackThread(p[1..], snap, fds)
    ensures forall k: nat :: Deliver(k) !in p[1..]
    ensures p[0].Snapshot? ==> forall op :: op in p[1..] ==> !IsCallback(op)
  {
    var rest := p[1..];
    assert forall op :: op in rest ==> op in p;
    if rest != [] {
      assert forall op :: op in rest[1..] ==> op in rest;
      assert rest[0] in rest;
    }
    if p[0].Snapshot? {
      assert Snapshot(p[0].o) in p;
    }
  }

  lemma NothingLeftToDo(snap: int, fds: map<nat, int>)
    ensures CallbackThread([], snap, fds)
  {
  }

  lemma TurnContinues(o: nat, snap: int, fds: map<nat, int>)
    ensures CallbackThread(Callback(o), snap, fds) && CallbackThread(Sleep(o), snap, fds)
    ensures snap >= 0 ==> CallbackThread(DataReady(o), snap, fds)
  {
  }

  lemma RecheckContinues(o: nat, rest: seq<Op>, snap: int, fds: map<nat, int>)
    requires CallbackThread([Recheck(o)] + rest, snap, fds) && FdOf(fds, o) == snap
    ensures CallbackThread([Deliver(o)] + rest, snap, fds)
  {
    var p, p' := [Recheck(o)] + rest, [Deliver(o)] + rest;
    assert p[1..] == rest && p'[1..] == rest;
    assert Recheck(o) in p && IsCallback(Recheck(o));
    assert forall op :: op in p' ==> op == Deliver(o) || op in rest;
    assert forall op :: op in rest ==> op in p;
  }

  lemma ArbitrateContinues(driver: seq<Op>, rest: seq<Op>, snap: int, fds: map<nat, int>)
    requires NoCallback(driver) && CallbackThread(rest, snap, fds) && forall k: nat :: Deliver(k) !in rest
    ensures CallbackThread(driver + rest, snap, fds)
    ensures var p := driver + rest; p != [] ==> !p[0].Deliver?
  {
    var p := driver + rest;
    assert forall op :: op in p ==> op in driver || op in rest;
    forall k: nat
      ensures Deliver(k) !in p
    {
      assert IsCallback(Deliver(k));
    }
    if p != [] {
      assert p[0] in p;
      assert forall op :: op in p[1..] ==> op in p;
    }
  }

  lemma CallbackContinues(s: State, th: Thread, c: Choice)
    requires CallbackThread(th.prog, th.snap, s.fds) && th.prog != [] && IsDriverProgram(c.program)
    ensures CallbackThread(Continuation(s, th, c), th.snap, s.fds)
    ensures var p := Continuation(s, th, c); p != [] && p[0].Deliver? ==> th.prog[0].Recheck?
    ensures th.prog[0].Snapshot? ==> forall op :: op in Continuation(s, th, c) ==> !IsCallback(op)
  {
    hide IsDriverProgram, CallbackThread, NoCallback;
    var rest := th.prog[1..];
    RestContinues(th.prog, th.snap, s.fds);
    assert rest != [] ==> rest[0] in rest;
    match th.prog[0]
    case ReadMode(o) => TurnContinues(o, th.snap, s.fds);
    case Select(o) =>
      TurnContinues(o, th.snap, s.fds);
      NothingLeftToDo(th.snap, s.fds);
    case Recheck(o) =>
      assert th.prog == [Recheck(o)] + rest;
      if FdOf(s.fds, o) == th.snap {
        RecheckContinues(o, rest, th.snap, s.fds);
      }
    case Arbitrate(o, client, on) =>
      DriverProgramHasNoCallback(c.program);
      ArbitrateContinues(c.program, rest, th.snap, s.fds);
    case _ =>
  }

  lemma OwnCallbackAfterStep(s: State, t: nat, c: Choice, s': State)
    requires CallbackOk(s) && Next(s, t, c, s')
    ensures |s'.threads| == |s.threads| && CallbackThread(s'.threads[t].prog, s'.threads[t].snap, s'.fds)
  {
    var th := s.threads[t];
    assert CallbackThread(th.prog, th.snap, s.fds);
    if th.prog == [] {
      var p :| IsProgram(s.workers, t, p) && s' == WithThread(s, t, s.threads[t].(prog := p));
      NewProgramHasNoCallback(s.workers, t, p);
      NoCallbackNeedsNothing(p, th.snap, s.fds);
    } else {
      hide Continuation, IsDriverProgram, Execute;
      ThreadAfterExecute(s, t, c);
      CallbackContinues(s, th, c);
    }
  }

  lemma ThreadAfterExecute(s: State, t: nat, c: Choice)
    requires t < |s.threads| && s.threads[t].prog != []
    ensures var s', op := Execute(s, t, c), s.threads[t].prog[0];
            && |s'.threads| == |s.threads|
            && s'.threads[t].prog == Continuation(s, s.threads[t], c)
            && s'.threads[t].snap == (if op.Snapshot? then FdOf(s.fds, op.o) else s.threads[t].snap)
            && (!op.SetFd? ==> s'.fds == s.fds)
  {
    hide Continuation;
  }

  lemma StepKeepsCallback(s: State, t: nat, c: Choice, s': State)
    requires Disciplined(s) && DescriptorsOk(s) && CallbackOk(s) && Next(s, t, c, s')
    ensures CallbackOk(s')
  {
    hide Next;
    OwnCallbackAfterStep(s, t, c, s');
    forall u | 0 <= u < |s'.threads| && u != t
      ensures s'.threads[u] == s.threads[u]
      ensures var p := s.threads[u].prog; p != [] && p[0].Deliver? ==> FdOf(s'.fds, p[0].o) == FdOf(s.fds, p[0].o)
    {
      OwnersAfterStep(s, t, c, s', u);
      if s.threads[u].prog != [] && s.threads[u].prog[0].Deliver? {
        NextThreadExists(s, t, c, s');
        CallbackDescriptorIsStable(s, u);
      }
    }
    hide Disciplined, DescriptorsOk;
  }

  // ---- disabling a client ----

  /** The slots that a call has updated are as it set them. */
  ghost predicate IsDone(call: Call, active: set<(nat, nat)>) {
    forall o :: o in call.drivers ==> ((o, call.client) in active <==> call.on)
  }

  /** Between updating a client's slots and returning, a call holds the wrapper mutex and the slots stay as it set
    them. */
  ghost predicate CallsOk(s: State) {
    forall t :: 0 <= t < |s.threads| && s.threads[t].call.Some? ==>
      s.owner.Of(WRAPPER) == Some(t) && IsDone(s.threads[t].call.value, s.active)
  }

  lemma StepKeepsCalls(s: State, t: nat, c: Choice, s': State)
    requires Disciplined(s) && CallsOk(s) && Next(s, t, c, s')
    ensures CallsOk(s')
  {
    hide WellLocked, Continuation, IsProgram, IsDriverProgram;
    assert WellLocked(s.threads[t].prog, s.owner.Held(t));
    hide Disciplined;
    if s.threads[t].prog != [] {
      HeadFacts(s.threads[t].prog, s.owner.Held(t));
      LockFacts(s.threads[t].prog, s.owner.Held(t));
      match s.threads[t].prog[0]
      case Lock(m) =>
      case Unlock(m) =>
      case Arbitrate(o, client, on) =>
      case _ =>
    }
  }

  ghost predicate Inv(s: State) {
    Disciplined(s) && DescriptorsOk(s) && CallbackOk(s) && CallsOk(s)
  }

  /** Every interleaving. */
  ghost predicate IsRun(states: seq<State>, tids: seq<nat>, choices: seq<Choice>) {
    && |states| == |tids| + 1 && |choices| == |tids|
    && Init(states[0])
    && forall i :: 0 <= i < |tids| ==> Next(states[i], tids[i], choices[i], states[i + 1])
  }

  lemma StepKeepsInv(s: State, t: nat, c: Choice, s': State)
    requires Inv(s) && Next(s, t, c, s')
    ensures Inv(s')
  {
    hide Disciplined, DescriptorsOk, CallbackOk, CallsOk, Next;
    StepKeepsDiscipline(s, t, c, s');
    StepKeepsDescriptors(s, t, c, s');
    StepKeepsCallback(s, t, c, s');
    StepKeepsCalls(s, t, c, s');
  }

  lemma InitHasInv(s: State)
    requires Init(s)
    ensures Inv(s)
  {
  }

  /** In every state of every interleaving: the lock discipline (so no deadlock on the mutexes, by NoMutexDeadlock),
    valid descriptors, and callbacks only on the descriptor waited on (by CallbackDescriptorIsStable). */
  lemma {:induction false} RunKeepsInv(states: seq<State>, tids: seq<nat>, choices: seq<Choice>, n: nat)
    requires IsRun(states, tids, choices) && n <= |tids|
    ensures Inv(states[n])
  {
    hide Inv, Next, Init;
    if n == 0 {
      InitHasInv(states[0]);
    } else {
      RunKeepsInv(states, tids, choices, n - 1);
      StepKeepsInv(states[n - 1], tids[n - 1], choices[n - 1], states[n - 1 + 1]);
    }
  }

  /** A call that has enabled or disabled a client on a driver returns in this step. */
  ghost predicate Returns(s: State, t: nat, o: nat, client: nat, on: bool) {
    && t < |s.threads| && s.threads[t].prog != [] && s.threads[t].prog[0] == Unlock(WRAPPER)
    && s.threads[t].call.Some?
    && var call := s.threads[t].call.value; call.client == client && call.on == on && o in call.drivers
  }

  ghost predicate Updates(s: State, t: nat, o: nat, client: nat, on: bool) {
    t < |s.threads| && s.threads[t].prog != [] && s.threads[t].prog[0] == Arbitrate(o, client, on)
  }

  /** The clients that receive data from driver o in the next step of thread t. */
  function Recipients(s: State, t: nat, o: nat): set<nat> {
    if t < |s.threads| && s.threads[t].prog != [] && s.threads[t].prog[0] == Deliver(o) then ActiveOn(s.active, o)
    else {}
  }

  lemma ActiveAfterStep(s: State, t: nat, c: Choice, s': State, o: nat, client: nat)
    requires Next(s, t, c, s') && !Updates(s, t, o, client, true)
    ensures (o, client) in s'.active ==> (o, client) in s.active
  {
    hide Continuation, IsProgram, IsDriverProgram;
  }

  /** Main result: once a call that disabled a client on a driver has returned, and until some call enables it there
    again, the client is not active on the driver in any state, so no callback delivers the driver's data to it. */
  lemma {:induction false} NoDeliveryAfterDisable(
      states: seq<State>, tids: seq<nat>, choices: seq<Choice>, m: nat, n: nat, o: nat, client: nat)
    requires IsRun(states, tids, choices) && m < n <= |tids|
    requires Returns(states[m], tids[m], o, client, false)
    requires forall k :: m < k < n ==> !Updates(states[k], tids[k], o, client, true)
    ensures (o, client) !in states[n].active && forall t :: client !in Recipients(states[n], t, o)
    decreases n
  {
    hide Next, Init, Updates;
    assert Next(states[n - 1], tids[n - 1], choices[n - 1], states[n - 1 + 1]);
    if n == m + 1 {
      RunKeepsInv(states, tids, choices, m);
      assert IsDone(states[m].threads[tids[m]].call.value, states[m].active);
      ReturnIsNoUpdate(states[m], tids[m], o, client);
    } else {
      NoDeliveryAfterDisable(states, tids, choices, m, n - 1, o, client);
    }
    ActiveAfterStep(states[n - 1], tids[n - 1], choices[n - 1], states[n - 1 + 1], o, client);
  }

  lemma ReturnIsNoUpdate(s: State, t: nat, o: nat, client: nat)
    requires Returns(s, t, o, client, false)
    ensures !Updates(s, t, o, client, true)
  {
  }

  // ---- that data is delivered ----

  /** A thread delivers in its next step if and only if its last one rechecked the descriptor and found it unchanged. */
  lemma DeliversIffUnchanged(s: State, t: nat, c: Choice, s': State, o: nat)
    requires CallbackOk(s) && Next(s, t, c, s') && s.threads[t].prog != []
    ensures |s'.threads| == |s.threads|
    ensures var p' := s'.threads[t].prog;
            p' != [] && p'[0] == Deliver(o) <==>
              s.threads[t].prog[0] == Recheck(o) && FdOf(s.fds, o) == s.threads[t].snap
  {
    var th := s.threads[t];
    assert CallbackThread(th.prog, th.snap, s.fds);
    hide IsDriverProgram, Execute, CallbackThread;
    ThreadAfterExecute(s, t, c);
    DeliverComesFromRecheck(s, th, c, o);
  }

  lemma DeliverComesFromRecheck(s: State, th: Thread, c: Choice, o: nat)
    requires CallbackThread(th.prog, th.snap, s.fds) && th.prog != [] && IsDriverProgram(c.program)
    ensures var p := Continuation(s, th, c);
            p != [] && p[0] == Deliver(o) <==> th.prog[0] == Recheck(o) && FdOf(s.fds, o) == th.snap
  {
    hide IsDriverProgram;
    var p := Continuation(s, th, c);
    CallbackContinues(s, th, c);
    if p != [] && p[0] == Deliver(o) {
      assert th.prog[0].Recheck?;
      assert Deliver(o) !in th.prog[1..];
    }
  }

  /** A worker that is suspended does nothing about the callback. */
  lemma SuspendedWorkerSleeps(s: State, t: nat, c: Choice, o: nat)
    requires t < |s.threads| && s.threads[t].prog != [] && s.threads[t].prog[0] == ReadMode(o) && o !in s.running
    ensures |Execute(s, t, c).threads| == |s.threads| && NoCallback(Execute(s, t, c).threads[t].prog)
  {
  }

  /** The first n operations of thread t, executed one after the other. */
  function Alone(s: State, t: nat, c: Choice, n: nat): State
    requires t < |s.threads|
    ensures |Alone(s, t, c, n).threads| == |s.threads|
  {
    if n == 0 then s else
    var s' := Alone(s, t, c, n - 1);
    if s'.threads[t].prog == [] then s' else Execute(s', t, c)
  }

  /** Thread t can execute its next operation. */
  predicate CanStep(s: State, t: nat, c: Choice) {
    t < |s.threads| && s.threads[t].prog != [] && !Blocked(s, t) && c.number !in s.open
  }

  lemma AloneStep(s: State, t: nat, c: Choice, n: nat)
    requires t < |s.threads| && CanStep(Alone(s, t, c, n), t, c)
    ensures Alone(s, t, c, n + 1) == Execute(Alone(s, t, c, n), t, c)
  {
  }

  /** What matters about a worker that runs alone: what it still has to do, the descriptor it copied, and that it holds
    no other mutex than the one given. */
  ghost predicate RunsAs(s: State, s': State, t: nat, prog: seq<Op>, snap: int, held: set<Mutex>) {
    && t < |s.threads| == |s'.threads| && s'.threads[t].prog == prog && s'.threads[t].snap == snap
    && s'.fds == s.fds && s'.open == s.open && s'.active == s.active && s'.running == s.running
    && (forall m :: m in {WRAPPER, FD(t), MODE(t)} ==> s'.owner.Of(m) == if m in held then Some(t) else None)
  }

  /** The next operation can be executed when the thread holds these mutexes and there is data. */
  predicate IsReady(s: State, t: nat, op: Op, snap: int, held: set<Mutex>) {
    match op
    case Lock(m) => m in {WRAPPER, FD(t), MODE(t)} && m !in held
    case Unlock(m) => m in {WRAPPER, FD(t), MODE(t)}
    case ReadMode(o) => o == t
    case Snapshot(o) => o == t
    case Select(o) => o == t && snap >= 0
    case Recheck(o) => o == t && snap == FdOf(s.fds, t)
    case _ => false
  }

  /** What follows an operation of a worker that is running and has data. */
  function Follows(t: nat, op: Op, rest: seq<Op>): seq<Op> {
    match op
    case ReadMode(_) => Callback(t)
    case Select(_) => DataReady(t)
    case Recheck(_) => [Deliver(t)] + rest
    case _ => rest
  }

  lemma WorkerStep(s: State, s': State, t: nat, c: Choice, op: Op, rest: seq<Op>, snap: int, held: set<Mutex>)
    requires RunsAs(s, s', t, [op] + rest, snap, held) && IsReady(s, t, op, snap, held)
    requires c.number !in s.open && c.ready && t in s.running
    ensures CanStep(s', t, c)
    ensures RunsAs(s, Execute(s', t, c), t, Follows(t, op, rest),
                   if op.Snapshot? then FdOf(s.fds, t) else snap, HeldAfter(op, held))
  {
    assert ([op] + rest)[1..] == rest;
  }

  /** One more operation of a worker that runs alone. */
  lemma OneMoreAlone(s: State, t: nat, c: Choice, n: nat, op: Op, rest: seq<Op>, snap: int, held: set<Mutex>,
                     next: seq<Op>, held': set<Mutex>)
    requires t < |s.threads| && RunsAs(s, Alone(s, t, c, n), t, [op] + rest, snap, held)
    requires IsReady(s, t, op, snap, held) && held' == HeldAfter(op, held) && next == Follows(t, op, rest)
    requires c.number !in s.open && c.ready && t in s.running
    ensures CanStep(Alone(s, t, c, n), t, c)
    ensures RunsAs(s, Alone(s, t, c, n + 1), t, next, if op.Snapshot? then FdOf(s.fds, t) else snap, held')
  {
    hide RunsAs, Alone, Execute, CanStep, IsReady, Follows;
    WorkerStep(s, Alone(s, t, c, n), t, c, op, rest, snap, held);
    AloneStep(s, t, c, n);
  }

  /** The worker takes and releases a mutex around another operation. */
  lemma SectionAlone(s: State, t: nat, c: Choice, n: nat, m: Mutex, op: Op, rest: seq<Op>, snap: int)
    requires t < |s.threads| && RunsAs(s, Alone(s, t, c, n), t, [Lock(m)] + ([op] + ([Unlock(m)] + rest)), snap, {})
    requires m == FD(t) && op == Snapshot(t)
    requires c.number !in s.open && c.ready && t in s.running
    ensures CanStep(Alone(s, t, c, n), t, c) && CanStep(Alone(s, t, c, n + 1), t, c)
    ensures CanStep(Alone(s, t, c, n + 2), t, c)
    ensures RunsAs(s, Alone(s, t, c, n + 3), t, rest, FdOf(s.fds, t), {})
  {
    hide RunsAs, Alone, CanStep, FdOf;
    OneMoreAlone(s, t, c, n, Lock(m), [op] + ([Unlock(m)] + rest), snap, {}, [op] + ([Unlock(m)] + rest), {m});
    OneMoreAlone(s, t, c, n + 1, op, [Unlock(m)] + rest, snap, {m}, [Unlock(m)] + rest, {m});
    OneMoreAlone(s, t, c, n + 2, Unlock(m), rest, FdOf(s.fds, t), {m}, rest, {});
  }

  /** The worker looks at its mode and enters the callback. */
  lemma EnterCallback(s: State, t: nat, c: Choice, snap: int)
    requires t < |s.threads| && RunsAs(s, Alone(s, t, c, 0), t, [Lock(MODE(t))] + [ReadMode(t)], snap, {})
    requires c.number !in s.open && c.ready && t in s.running
    ensures CanStep(Alone(s, t, c, 0), t, c) && CanStep(Alone(s, t, c, 1), t, c) && CanStep(Alone(s, t, c, 2), t, c)
    ensures RunsAs(s, Alone(s, t, c, 3), t,
                   [Lock(FD(t))] + ([Snapshot(t)] + ([Unlock(FD(t))] + [Select(t)])), snap, {})
  {
    hide RunsAs, Alone, CanStep, FdOf;
    var m := MODE(t);
    var p := [Lock(FD(t))] + ([Snapshot(t)] + ([Unlock(FD(t))] + [Select(t)]));
    OneMoreAlone(s, t, c, 0, Lock(m), [ReadMode(t)], snap, {}, [ReadMode(t)] + [], {m});
    OneMoreAlone(s, t, c, 1, ReadMode(t), [], snap, {m}, [Unlock(m)] + p, {m});
    OneMoreAlone(s, t, c, 2, Unlock(m), p, snap, {m}, p, {});
  }

  /** The worker gets data and rechecks the descriptor. */
  lemma RecheckAndDeliver(s: State, t: nat, c: Choice)
    requires t < |s.threads| && RunsAs(s, Alone(s, t, c, 6), t, [Select(t)] + [], FdOf(s.fds, t), {})
    requires c.number !in s.open && c.ready && t in s.running && FdOf(s.fds, t) >= 0
    ensures CanStep(Alone(s, t, c, 6), t, c) && CanStep(Alone(s, t, c, 7), t, c)
    ensures CanStep(Alone(s, t, c, 8), t, c) && CanStep(Alone(s, t, c, 9), t, c)
    ensures RunsAs(s, Alone(s, t, c, 10), t, [Deliver(t)] + [Unlock(FD(t)), Unlock(WRAPPER)], FdOf(s.fds, t),
                   {WRAPPER, FD(t)})
  {
    hide RunsAs, Alone, CanStep, FdOf;
    var lock, fd := FD(t), FdOf(s.fds, t);
    var p := [Unlock(lock), Unlock(WRAPPER)];
    OneMoreAlone(s, t, c, 6, Select(t), [], fd, {}, [Lock(WRAPPER)] + ([Lock(lock)] + ([Recheck(t)] + p)), {});
    var p' := [Lock(lock)] + ([Recheck(t)] + p);
    OneMoreAlone(s, t, c, 7, Lock(WRAPPER), p', fd, {}, p', {WRAPPER});
    OneMoreAlone(s, t, c, 8, Lock(lock), [Recheck(t)] + p, fd, {WRAPPER}, [Recheck(t)] + p, {WRAPPER, lock});
    OneMoreAlone(s, t, c, 9, Recheck(t), p, fd, {WRAPPER, lock}, [Deliver(t)] + p, {WRAPPER, lock});
  }

  /** Main result: a running worker that starts a turn of its loop with its mutexes free, a valid descriptor and data on
    it, gets by steps of its own to the point where it delivers to exactly the clients active on its driver. */
  lemma RunningWorkerDelivers(s: State, t: nat, c: Choice)
    requires t < |s.threads| && s.threads[t].prog == Worker(t) && t in s.running && FdOf(s.fds, t) >= 0
    requires s.owner.Of(WRAPPER) == s.owner.Of(FD(t)) == s.owner.Of(MODE(t)) == None
    requires c.ready && c.number !in s.open
    ensures forall n :: 0 <= n < 10 ==> CanStep(Alone(s, t, c, n), t, c)
    ensures var s' := Alone(s, t, c, 10);
            s'.threads[t].prog != [] && s'.threads[t].prog[0] == Deliver(t)
    ensures Recipients(Alone(s, t, c, 10), t, t) == ActiveOn(s.active, t)
  {
    hide RunsAs, Alone, CanStep, FdOf, Recipients, ActiveOn;
    StartOfTurn(s, t, c);
    EnterCallback(s, t, c, s.threads[t].snap);
    SectionAlone(s, t, c, 3, FD(t), Snapshot(t), [Select(t)], s.threads[t].snap);
    assert [Select(t)] == [Select(t)] + [];
    RecheckAndDeliver(s, t, c);
    DeliversToActive(s, Alone(s, t, c, 10), t, [Unlock(FD(t)), Unlock(WRAPPER)], FdOf(s.fds, t), {WRAPPER, FD(t)});
  }

  lemma StartOfTurn(s: State, t: nat, c: Choice)
    requires t < |s.threads| && s.threads[t].prog == Worker(t)
    requires s.owner.Of(WRAPPER) == s.owner.Of(FD(t)) == s.owner.Of(MODE(t)) == None
    ensures RunsAs(s, Alone(s, t, c, 0), t, [Lock(MODE(t))] + [ReadMode(t)], s.threads[t].snap, {})
  {
  }

  lemma DeliversToActive(s: State, s': State, t: nat, rest: seq<Op>, snap: int, held: set<Mutex>)
    requires RunsAs(s, s', t, [Deliver(t)] + rest, snap, held)
    ensures t < |s'.threads| && s'.threads[t].prog != [] && s'.threads[t].prog[0] == Deliver(t)
    ensures Recipients(s', t, t) == ActiveOn(s.active, t)
  {
  }

  /** Updating a client's slot leads to calls of the driver if and only if no client was active on it before an enable,
    or no other one is active on it at a disable. */
  lemma DriverIsCalledIff(s: State, th: Thread, c: Choice, o: nat, client: nat, on: bool)
    requires th.prog != [] && th.prog[0] == Arbitrate(o, client, on)
    ensures Continuation(s, th, c)
         == (if forall k: nat :: (on || k != client) ==> (o, k) !in s.active then c.program else []) + th.prog[1..]
  {
    var active := ActiveOn(s.active, o);
    assert forall k: nat :: k in active <==> (o, k) in s.active;
    assert [] + th.prog[1..] == th.prog[1..];
    if on {
      assert active == {} <==> forall k: nat :: (o, k) !in s.active;
    } else {
      var others := active - {client};
      if others != {} {
        var k :| k in others;
        assert (o, k) in s.active;
      }
      assert forall k: nat :: k != client && (o, k) in s.active ==> k in others;
    }
  }
}
