/** What the calls of the multiplexer return and deliver, and how init finds its drivers. */
module MultiplexerAnswers {
  import opened Options
  import opened Multiplexer
  import opened MultiplexerRuns

  // ---- return values ----

  /** The k-th link of an operation led to a call of a driver. */
  ghost predicate CallsDriver(list: seq<Driver>, links: seq<Link>, k: nat, op: Operation)
    requires k < |links| && LinksValid(list, links)
  {
    var i := links[k].sensor;
    |OnLinks(list, links, k + 1, op)[i].calls| > |OnLinks(list, links, k, op)[i].calls|
  }

  /** The value returned is that of the last driver called. */
  lemma {:induction false} LastCallIsReturned(
      list: seq<Driver>, links: seq<Link>, n: nat, op: Operation, answers: Answers, k: nat)
    requires k < n <= |links| && LinksValid(list, links) && CallsDriver(list, links, k, op)
    requires forall m :: k < m < n ==> !CallsDriver(list, links, m, op)
    ensures var i := links[k].sensor;
            ReturnCode(list, links, n, op, answers) == answers(i, |OnLinks(list, links, k + 1, op)[i].calls| - 1)
    decreases n
  {
    hide OnLinks, CallsDriver, ReturnCode;
    ReturnCodeAfter(list, links, n - 1, op, answers);
    if k == n - 1 {
    } else {
      LastCallIsReturned(list, links, n - 1, op, answers, k);
    }
  }

  /** Without any driver call the value returned is 0. */
  lemma {:induction false} NoCallReturnsZero(
      list: seq<Driver>, links: seq<Link>, n: nat, op: Operation, answers: Answers)
    requires n <= |links| && LinksValid(list, links)
    requires forall k :: 0 <= k < n ==> !CallsDriver(list, links, k, op)
    ensures ReturnCode(list, links, n, op, answers) == 0
  {
    hide OnLinks, CallsDriver, ReturnCode;
    if n == 0 {
      NoLinksNoCalls(list, links, op, answers);
    } else {
      ReturnCodeAfter(list, links, n - 1, op, answers);
      NoCallReturnsZero(list, links, n - 1, op, answers);
    }
  }

  lemma NoLinksNoCalls(list: seq<Driver>, links: seq<Link>, op: Operation, answers: Answers)
    requires LinksValid(list, links)
    ensures ReturnCode(list, links, 0, op, answers) == 0
  {
  }

  lemma ReturnCodeAfter(list: seq<Driver>, links: seq<Link>, k: nat, op: Operation, answers: Answers)
    requires k < |links| && LinksValid(list, links)
    ensures var i := links[k].sensor;
            ReturnCode(list, links, k + 1, op, answers)
            == if CallsDriver(list, links, k, op) then answers(i, |OnLinks(list, links, k + 1, op)[i].calls| - 1)
               else ReturnCode(list, links, k, op, answers)
  {
    hide OnSlot;
  }

  // ---- data ----

  ghost predicate Increasing(s: seq<nat>) {
    forall a, b :: 0 <= a < b < |s| ==> s[a] < s[b]
  }

  /** The client of a slot takes the data. */
  predicate TakesData(s: Slot, descs: seq<Desc>) {
    ACTIVE in s.status && s.api.Some? && s.api.value < |descs| && descs[s.api.value].listens
  }

  /** The data goes once through each slot whose client takes it, in slot order. */
  lemma {:induction false} DataGoesInSlotOrder(d: Driver, descs: seq<Desc>, n: nat) returns (slots: seq<nat>)
    requires n <= d.nr
    ensures Increasing(slots) && (forall j: nat :: j in slots <==> j < n && TakesData(d.slots[j], descs))
    ensures |slots| == |Receivers(d, descs, n)|
    ensures forall k :: 0 <= k < |slots| ==>
              slots[k] < n && d.slots[slots[k]].api == Some(Receivers(d, descs, n)[k])
  {
    if n == 0 {
      slots := [];
    } else {
      slots := DataGoesInSlotOrder(d, descs, n - 1);
      if TakesData(d.slots[n - 1], descs) {
        slots := slots + [n - 1];
      }
    }
  }

  // ---- init ----

  /** One round of init: the first usable driver of a type is found, and the client gets its next slot. */
  ghost predicate Attaches(before: seq<Driver>, after: seq<Driver>, kind: int, link: Link, c: nat, answers: Answers) {
    exists p: Picked ::
      && p.found == Some(link.sensor) && FindsFirstUsable(before, kind, 0, answers, p)
      && link.client == before[link.sensor].nr < MAX_SENSOR_CONNECTIONS
      && var d := p.list[link.sensor];
         after == p.list[link.sensor := d.(slots := d.slots[link.client := Slot(Some(c), {INIT}, NO_RATE)],
                                           nr := link.client + 1)]
  }

  /** A scan that finds no usable driver of a type. */
  ghost predicate FindsNone(before: seq<Driver>, after: seq<Driver>, kind: int, answers: Answers) {
    exists p: Picked :: p.found == None && FindsFirstUsable(before, kind, 0, answers, p) && after == p.list
  }

  /** The drivers between the rounds of init: each new link takes the first usable driver of its type, tried from the
    first driver on, and init ends when all types are matched or no usable driver is left for the next one. */
  ghost predicate Rounds(lists: seq<seq<Driver>>, d: Desc, r: Initialised, c: nat, answers: Answers) {
    && |d.links| <= |r.links| <= |d.wanted| && |lists| == |r.links| - |d.links| + 1
    && (forall k :: 0 <= k < |lists| - 1 ==>
          Attaches(lists[k], lists[k + 1], d.wanted[|d.links| + k], r.links[|d.links| + k], c, answers))
    && if |r.links| == |d.wanted| then r.list == lists[|lists| - 1]
       else FindsNone(lists[|lists| - 1], r.list, d.wanted[|r.links|], answers)
  }

  /** Main result: init is a sequence of such rounds. */
  lemma {:induction false} InitIsSequenceOfRounds(s: State, c: nat, err: int, answers: Answers)
      returns (lists: seq<seq<Driver>>)
    requires Inv(s) && c < |s.descs| && err < 0
    requires Room(s.list, s.descs[c].wanted, s.descs[c].links, c, err, answers)
    ensures var d := s.descs[c];
            var r := InitLinks(s.list, d.wanted, d.links, c, err, answers);
            lists != [] && lists[0] == s.list && d.links <= r.links && Rounds(lists, d, r, c, answers)
    decreases |s.descs[c].wanted| - |s.descs[c].links|
  {
    hide Owned, DriverOk, RateExact, Pick, Room, Has, InitLinks, AttachSlot, FindsFirstUsable;
    var d := s.descs[c];
    MatchesAreWanted(s, c);
    lists := [s.list];
    if |d.links| == |d.wanted| {
      RepeatedInit(s.list, d.wanted, d.links, c, err, answers);
      return;
    }
    var kind := d.wanted[|d.links|];
    var p := Pick(s.list, kind, 0, err, answers);
    InitContinues(s.list, d.wanted, d.links, c, err, answers, p);
    PickIsFirstUsable(s.list, kind, 0, err, answers);
    if p.found == None {
      assert FindsNone(s.list, p.list, kind, answers);
      return;
    }
    var m := p.found.value;
    var link := Link(m, p.list[m].nr);
    var list' := p.list[m := AttachSlot(p.list[m], c)];
    FoundDriver(s, kind, err, answers, p);
    AttachKeepsDriver(s.list[m], p.list[m], answers(m, |s.list[m].calls|), c);
    NextSlotIsPristine(s.list[m]);
    SlotOfAttached(p.list[m], c);
    assert Attaches(s.list, list', kind, link, c, answers);
    var links := d.links + [link];
    ScanKeepsDrivers(s.list, kind, err, answers, p);
    OwnedAfterAttach(s, p.list, c, m);
    var s' := State(list', s.descs[c := d.(links := links)]);
    if |links| == |d.wanted| {
      lists := [s.list, list'];
    } else {
      var rest := InitIsSequenceOfRounds(s', c, p.err, answers);
      lists := [s.list] + rest;
      MoreRounds(s.list, rest, d, links, InitLinks(s.list, d.wanted, d.links, c, err, answers), c, answers);
    }
  }

  /** The driver found has no client more than before, and its slots are untouched. */
  lemma FoundDriver(s: State, kind: int, err: int, answers: Answers, p: Picked)
    requires Inv(s) && p == Pick(s.list, kind, 0, err, answers) && p.found.Some?
    requires FindsFirstUsable(s.list, kind, 0, answers, p)
    ensures var m := p.found.value;
            && m < |s.list| && s.list[m].kind == kind && DriverOk(s.list[m])
            && p.list[m].nr == s.list[m].nr && p.list[m].slots == s.list[m].slots
            && (Has(s.list[m], INIT) || answers(m, |s.list[m].calls|) >= 0)
            && p.list[m] == (if Has(s.list[m], INIT) then s.list[m]
                             else Called(s.list[m], CallInit(answers(m, |s.list[m].calls|))))
  {
    hide Has, DriverOk, Owned, Pick;
  }

  lemma SlotOfAttached(d: Driver, c: nat)
    requires d.nr < MAX_SENSOR_CONNECTIONS && d.slots[d.nr] == PRISTINE
    ensures AttachSlot(d, c) == d.(slots := d.slots[d.nr := Slot(Some(c), {INIT}, NO_RATE)], nr := d.nr + 1)
  {
    assert {} + {INIT} == {INIT};
  }

  lemma MoreRounds(first: seq<Driver>, rest: seq<seq<Driver>>, d: Desc, links: seq<Link>, r: Initialised, c: nat,
                   answers: Answers)
    requires rest != [] && |links| == |d.links| + 1 && links <= r.links && d.links <= links
    requires Rounds(rest, d.(links := links), r, c, answers)
    requires |d.links| < |d.wanted| && Attaches(first, rest[0], d.wanted[|d.links|], links[|d.links|], c, answers)
    ensures Rounds([first] + rest, d, r, c, answers)
  {
    hide Attaches, FindsNone;
    var lists := [first] + rest;
    assert r.links[|d.links|] == links[|d.links|];
    forall k | 0 <= k < |lists| - 1
      ensures Attaches(lists[k], lists[k + 1], d.wanted[|d.links| + k], r.links[|d.links| + k], c, answers)
    {
      if k > 0 {
        assert Attaches(rest[k - 1], rest[k - 1 + 1], d.wanted[|links| + k - 1], r.links[|links| + k - 1], c, answers);
      }
    }
    assert lists[|lists| - 1] == rest[|rest| - 1];
  }
}
