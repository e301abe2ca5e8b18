/** What holds of the measurement pipeline over every mix of samples and recalibration requests. */
module MeasurementRuns {
  import opened Vectors
  import opened Buffers
  import opened Calibration
  import opened CalibrationRuns
  import opened CalibrationBias
  import opened Measurement

  datatype Event = Magnetic(sample: Sample) | Acceleration(acc: Vec) | Recalibrate

  function Apply(p: Params, e: Event): Params {
    match e
    case Magnetic(sample) => MagneticStep(p, sample.v, sample.stale)
    case Acceleration(acc) => AccelerationStep(p, acc)
    case Recalibrate => p.(hstatus := 0)
  }

  function After(start: Params, events: seq<Event>): Params {
    if events == [] then start else Apply(After(start, events[..|events| - 1]), events[|events| - 1])
  }

  /** The magnetometer samples of a run. */
  function Magnetics(events: seq<Event>): (r: seq<Sample>)
    ensures |r| <= |events|
  {
    if events == [] then [] else
    var init := Magnetics(events[..|events| - 1]);
    match events[|events| - 1]
    case Magnetic(sample) => init + [sample]
    case _ => init
  }

  /** A sample minus the offset in force when it was processed, which already includes that sample. */
  function Corrected(stored: Vec, samples: seq<Sample>, i: nat): Vec
    requires i < |samples|
  {
    Minus(samples[i].v, RunOf(stored, samples[..i + 1]).offset)
  }

  function NewestCorrected(stored: Vec, samples: seq<Sample>, k: nat): seq<Vec>
    requires k <= |samples|
  {
    seq(k, i requires 0 <= i < k => Corrected(stored, samples, |samples| - 1 - i))
  }

  lemma NewestCorrectedStep(stored: Vec, init: seq<Sample>, last: Sample, k: nat)
    requires k <= |init|
    ensures NewestCorrected(stored, init + [last], k + 1)
         == [Minus(last.v, RunOf(stored, init + [last]).offset)] + NewestCorrected(stored, init, k)
  {
    hide RunOf, Minus;
    var all := init + [last];
    assert all[..|init| + 1] == all;
    forall i | 0 <= i < |init|
      ensures Corrected(stored, all, i) == Corrected(stored, init, i)
    {
      assert all[..i + 1] == init[..i + 1];
    }
    assert Corrected(stored, all, |init|) == Minus(last.v, RunOf(stored, all).offset);
    hide Corrected;
    var a, b := NewestCorrected(stored, all, k + 1), NewestCorrected(stored, init, k);
    forall i | 0 <= i < k
      ensures a[i + 1] == b[i]
    {
      assert a[i + 1] == Corrected(stored, all, |init| - 1 - i);
    }
  }

  /** The calibration inside the pipeline sees exactly the magnetometer samples, and the averaging buffer holds
    their corrected values; accelerometer samples and recalibration requests do not interfere. */
  ghost predicate FollowsSamples(p: Params, stored: Vec, samples: seq<Sample>) {
    && p.aoc == RunOf(stored, samples).state
    && p.ho == RunOf(stored, samples).offset
    && p.hvbuf == Filled(NewestCorrected(stored, samples, Min(|samples|, HDATA_SIZE)), HDATA_SIZE)
    && (samples != [] ==> p.hvec == Mean(Live(p.hvbuf[..NAVE])))
  }

  lemma SampleFollows(p: Params, stored: Vec, init: seq<Sample>, last: Sample)
    requires FollowsSamples(p, stored, init)
    ensures FollowsSamples(MagneticStep(p, last.v, last.stale), stored, init + [last])
  {
    hide Step, Mean, Live, Norm2, NewestCorrected, Minus, Pushed, Filled;
    var all := init + [last];
    assert all[..|all| - 1] == init;
    assert RunOf(stored, all) == Advance(RunOf(stored, init), last);
    var k := Min(|init|, HDATA_SIZE);
    var o := RunOf(stored, all).offset;
    var entries := NewestCorrected(stored, init, k);
    hide RunOf;
    PrefixOfNewest(stored, init, k);
    PushedOntoFilled(entries, HDATA_SIZE, Minus(last.v, o));
    NewestCorrectedStep(stored, init, last, if k < HDATA_SIZE then k else k - 1);
  }

  lemma PrefixOfNewest(stored: Vec, samples: seq<Sample>, k: nat)
    requires k <= |samples|
    ensures |NewestCorrected(stored, samples, k)| == k
    ensures k > 0 ==> NewestCorrected(stored, samples, k)[..k - 1] == NewestCorrected(stored, samples, k - 1)
  {
    hide Corrected;
  }

  lemma {:induction false} PipelineFollowsSamples(p0: Params, stored: Vec, events: seq<Event>)
    ensures FollowsSamples(After(Restarted(p0, stored), events), stored, Magnetics(events))
  {
    hide MagneticStep, AccelerationStep, RunOf, NewestCorrected, Mean, Live, Filled;
    if events == [] {
      EmptyRunFollows(p0, stored);
    } else {
      var init, last := events[..|events| - 1], events[|events| - 1];
      PipelineFollowsSamples(p0, stored, init);
      var p := After(Restarted(p0, stored), init);
      match last
      case Magnetic(sample) => SampleFollows(p, stored, Magnetics(init), sample);
      case Acceleration(acc) => AccelerationLeavesMagnetics(p, acc);
      case Recalibrate =>
    }
  }

  lemma AccelerationLeavesMagnetics(p: Params, acc: Vec)
    ensures var p' := AccelerationStep(p, acc); p' == p.(avbuf := p'.avbuf, avec := p'.avec)
  {
  }

  lemma EmptyRunFollows(p0: Params, stored: Vec)
    ensures FollowsSamples(Restarted(p0, stored), stored, [])
  {
    assert Filled([], HDATA_SIZE) == Sentinels(HDATA_SIZE);
  }

  lemma {:induction false} BoxInRange(v: seq<Vec>, limit: real)
    requires |v| > 0 && AllInRange(v, limit)
    ensures InRange(Low(v), limit) && InRange(High(v), limit)
  {
    if |v| == 1 {
    } else {
      BoxInRange(v[..|v| - 1], limit);
      assert InRange(v[|v| - 1], limit);
    }
  }

  /** Offsets stay in range, so no corrected sample can be mistaken for an empty slot. */
  lemma {:induction false} OffsetInRange(stored: Vec, samples: seq<Sample>)
    requires SamplesInRange(samples) && InRange(stored, 5.0 * LIMIT)
    ensures InRange(RunOf(stored, samples).offset, 5.0 * LIMIT)
  {
    hide InRange, RunOf, Advance, HoldsMostRecent;
    if samples == [] {
      NothingReportedYet(stored);
    } else {
      hide *;
      var s, last := LastStep(stored, samples);
      assert samples[..|samples| - 1] + [last] == samples;
      PrefixInRange(samples[..|samples| - 1], last);
      OffsetInRange(stored, samples[..|samples| - 1]);
      CentersInRange(stored, samples);
      WindowsHoldMostRecent(stored, samples);
      NextOffsetInRange(samples, s, last);
    }
  }

  lemma NextOffsetInRange(samples: seq<Sample>, s: Run, last: Sample)
    requires HoldsMostRecent(samples, Advance(s, last)) && InRange(s.offset, 5.0 * LIMIT)
    requires AllInRange(Advance(s, last).centers, 5.0 * LIMIT)
    ensures InRange(Advance(s, last).offset, 5.0 * LIMIT)
  {
    hide InRange, HoldsMostRecent, Advance, Judge, Window, Pushed, Agree, High, Low, Midpoint, IsEmpty;
    AdvanceByJudgement(s, last);
    var r := Advance(s, last);
    if r.ok {
      FullCenters(samples, r);
      BoxInRange(r.state.hobuf, 5.0 * LIMIT);
      MidpointInRange(High(r.state.hobuf), Low(r.state.hobuf), 5.0 * LIMIT);
    }
  }

  lemma MidpointInRange(a: Vec, b: Vec, limit: real)
    requires InRange(a, limit) && InRange(b, limit)
    ensures InRange(Midpoint(a, b), limit)
  {
  }

  lemma DifferenceIsPresent(v: Vec, o: Vec)
    requires InRange(v, LIMIT) && InRange(o, 5.0 * LIMIT)
    ensures !IsMissing(Minus(v, o))
  {
  }

  lemma CorrectedIsPresent(stored: Vec, samples: seq<Sample>, i: nat)
    requires i < |samples| && SamplesInRange(samples) && InRange(stored, 5.0 * LIMIT)
    ensures !IsMissing(Corrected(stored, samples, i))
  {
    hide InRange, RunOf, IsMissing;
    OffsetInRange(stored, samples[..i + 1]);
    DifferenceIsPresent(samples[i].v, RunOf(stored, samples[..i + 1]).offset);
  }

  lemma {:induction false} LiveOfFilled(entries: seq<Vec>, size: nat, n: nat)
    requires |entries| <= size && n <= size
    requires forall i :: 0 <= i < |entries| ==> !IsMissing(entries[i])
    ensures Live(Filled(entries, size)[..n]) == entries[..Min(|entries|, n)]
  {
    if n == 0 {
    } else {
      var v := Filled(entries, size)[..n];
      if entries == [] {
        assert v[0] == SENTINEL;
      } else {
        assert v[1..] == Filled(entries[1..], size - 1)[..n - 1];
        LiveOfFilled(entries[1..], size - 1, n - 1);
      }
    }
  }

  /** A sum of n vectors between n times two corners. */
  ghost predicate Between(n: real, lo: Vec, s: Vec, hi: Vec) {
    && n * lo.x <= s.x <= n * hi.x
    && n * lo.y <= s.y <= n * hi.y
    && n * lo.z <= s.z <= n * hi.z
  }

  lemma OneMore(n: real, lo: Vec, s: Vec, hi: Vec, v: Vec)
    requires Between(n, lo, s, hi) && Below(lo, v) && Below(v, hi)
    ensures Between(n + 1.0, lo, Plus(s, v), hi)
  {
  }

  lemma EmptySum(lo: Vec, hi: Vec)
    ensures Between(0.0, lo, ZERO, hi)
  {
  }

  lemma {:induction false} SumInBox(v: seq<Vec>, lo: Vec, hi: Vec)
    requires forall i :: 0 <= i < |v| ==> Below(lo, v[i]) && Below(v[i], hi)
    ensures Between(|v| as real, lo, Sum(v), hi)
  {
    hide Below, Between, Plus;
    if v == [] {
      EmptySum(lo, hi);
    } else {
      var init, last := v[..|v| - 1], v[|v| - 1];
      SumInBox(init, lo, hi);
      assert Below(lo, last) && Below(last, hi);
      OneMore(|init| as real, lo, Sum(init), hi, last);
    }
  }

  lemma QuotientBetween(s: real, n: real, lo: real, hi: real)
    requires n > 0.0 && n * lo <= s <= n * hi
    ensures lo <= s / n <= hi
  {
    assert s == (s / n) * n;
  }

  /** An average lies in the box of what is averaged. */
  lemma MeanInBox(v: seq<Vec>)
    requires |v| > 0
    ensures Below(Low(v), Mean(v)) && Below(Mean(v), High(v))
  {
    hide Low, High, Sum, Below, Between;
    BoxContains(v);
    var lo, hi, s := Low(v), High(v), Sum(v);
    SumInBox(v, lo, hi);
    MeanBetween(v, lo, hi);
  }

  lemma MeanBetween(v: seq<Vec>, lo: Vec, hi: Vec)
    requires |v| > 0
    requires Between(|v| as real, lo, Sum(v), hi)
    ensures Below(lo, Mean(v)) && Below(Mean(v), hi)
  {
    hide Sum;
    var s := Sum(v);
    var n := |v| as real;
    QuotientBetween(s.x, n, lo.x, hi.x);
    QuotientBetween(s.y, n, lo.y, hi.y);
    QuotientBetween(s.z, n, lo.z, hi.z);
  }

  // ---- what a mean is ----

  lemma SumOfOne(v: Vec)
    ensures Sum([v]) == v
  {
    assert [v][..0] == [];
    assert Sum([v]) == Plus(Sum([]), v);
  }

  lemma PlusIsAssociative(a: Vec, b: Vec, c: Vec)
    ensures Plus(Plus(a, b), c) == Plus(a, Plus(b, c))
    ensures Plus(a, ZERO) == a
  {
  }

  /** Sums add up: together with the sum of one vector this determines the sum. */
  lemma {:induction false} SumOfConcat(a: seq<Vec>, b: seq<Vec>)
    ensures Sum(a + b) == Plus(Sum(a), Sum(b))
  {
    hide Plus;
    if b == [] {
      assert a + b == a;
      PlusIsAssociative(Sum(a), ZERO, ZERO);
    } else {
      var n := |b| - 1;
      SumOfConcat(a, b[..n]);
      assert (a + b)[..|a| + n] == a + b[..n];
      PlusIsAssociative(Sum(a), Sum(b[..n]), b[n]);
    }
  }

  /** A vector that n times makes up a sum. */
  predicate IsShare(m: Vec, n: nat, s: Vec) {
    m.x * n as real == s.x && m.y * n as real == s.y && m.z * n as real == s.z
  }

  lemma MeanIsShare(v: seq<Vec>)
    ensures IsShare(Mean(v), |v|, Sum(v))
  {
    hide Sum;
    if v == [] {
      assert Sum(v) == ZERO by {
        SumOfNone();
      }
    } else {
      ShareOfQuotient(Sum(v).x, |v|);
      ShareOfQuotient(Sum(v).y, |v|);
      ShareOfQuotient(Sum(v).z, |v|);
    }
  }

  lemma SumOfNone()
    ensures Sum([]) == ZERO
  {
  }

  lemma ShareOfQuotient(s: real, n: nat)
    requires n > 0
    ensures (s / n as real) * n as real == s
  {
  }

  /** How a sum over a full window moves when a vector enters and one leaves. */
  lemma SumMoves(entering: Vec, kept: seq<Vec>, leaving: Vec)
    ensures Plus(Sum([entering] + kept), leaving) == Plus(entering, Sum(kept + [leaving]))
  {
    hide Sum, Plus;
    SumOfConcat([entering], kept);
    SumOfConcat(kept, [leaving]);
    SumOfOne(entering);
    SumOfOne(leaving);
    PlusIsAssociative(entering, Sum(kept), leaving);
  }

  /** Main result: after any run with at least one magnetometer sample the reported vector is the mean of the last
    eight (or fewer) samples, each minus the offset in force when it was processed, and lies in their box. */
  lemma VectorIsMeanOfCorrected(p0: Params, stored: Vec, events: seq<Event>)
    requires SamplesInRange(Magnetics(events)) && Magnetics(events) != [] && InRange(stored, 5.0 * LIMIT)
    ensures var samples := Magnetics(events);
            var recent := NewestCorrected(stored, samples, Min(|samples|, 8));
            var hvec := After(Restarted(p0, stored), events).hvec;
            && hvec == Mean(recent) && IsShare(hvec, Min(|samples|, 8), Sum(recent))
            && Below(Low(recent), hvec) && Below(hvec, High(recent))
  {
    hide After, Magnetics, Mean, Live, Low, High, Below, InRange, SamplesInRange, Restarted, Corrected, IsMissing;
    PipelineFollowsSamples(p0, stored, events);
    var samples := Magnetics(events);
    var k := Min(|samples|, HDATA_SIZE);
    var entries := NewestCorrected(stored, samples, k);
    forall i | 0 <= i < k
      ensures !IsMissing(entries[i])
    {
      CorrectedIsPresent(stored, samples, |samples| - 1 - i);
    }
    LiveOfFilled(entries, HDATA_SIZE, NAVE);
    var recent := NewestCorrected(stored, samples, Min(|samples|, NAVE));
    assert entries[..Min(k, NAVE)] == recent;
    MeanInBox(recent);
    MeanIsShare(recent);
  }

  /** Main result: once nine samples have arrived, each further one moves the reported vector by an eighth of its
    corrected value minus that of the sample eight before it. */
  lemma VectorMoves(p0: Params, stored: Vec, events: seq<Event>, sample: Sample)
    requires var samples := Magnetics(events + [Magnetic(sample)]);
             SamplesInRange(samples) && |samples| >= 9
    requires InRange(stored, 5.0 * LIMIT)
    ensures var all := events + [Magnetic(sample)];
            var samples := Magnetics(all);
            var n := |samples| - 1;
            var before, after := After(Restarted(p0, stored), events).hvec, After(Restarted(p0, stored), all).hvec;
            IsShare(Minus(after, before), 8, Minus(Corrected(stored, samples, n), Corrected(stored, samples, n - 8)))
  {
    var all := events + [Magnetic(sample)];
    var samples := Magnetics(all);
    var n := |samples| - 1;
    assert all[..|events|] == events;
    assert samples == Magnetics(events) + [sample];
    var init := samples[..n];
    assert init == Magnetics(events);
    hide After, Magnetics, Mean, Sum, Restarted, InRange, Corrected, RunOf, SamplesInRange;
    PrefixInRange(init, sample);
    VectorIsMeanOfCorrected(p0, stored, events);
    VectorIsMeanOfCorrected(p0, stored, all);
    WindowsOfCorrected(stored, samples);
    var kept := NewestCorrected(stored, init, 7);
    SumMoves(Corrected(stored, samples, n), kept, Corrected(stored, samples, n - 8));
    ShareOfDifference(After(Restarted(p0, stored), all).hvec, After(Restarted(p0, stored), events).hvec,
                      Sum(NewestCorrected(stored, samples, 8)), Sum(NewestCorrected(stored, init, 8)),
                      Corrected(stored, samples, n), Corrected(stored, samples, n - 8));
  }

  lemma ShareOfDifference(m': Vec, m: Vec, s': Vec, s: Vec, entering: Vec, leaving: Vec)
    requires IsShare(m', 8, s') && IsShare(m, 8, s) && Plus(s', leaving) == Plus(entering, s)
    ensures IsShare(Minus(m', m), 8, Minus(entering, leaving))
  {
  }

  /** The last eight corrected samples before and after one arrives. */
  lemma WindowsOfCorrected(stored: Vec, samples: seq<Sample>)
    requires |samples| >= 9
    ensures var n := |samples| - 1;
            var init := samples[..n];
            var kept := NewestCorrected(stored, init, 7);
            && NewestCorrected(stored, samples, 8) == [Corrected(stored, samples, n)] + kept
            && NewestCorrected(stored, init, 8) == kept + [Corrected(stored, samples, n - 8)]
  {
    hide RunOf, Minus;
    var n := |samples| - 1;
    var init := samples[..n];
    forall i | 0 <= i < n
      ensures Corrected(stored, init, i) == Corrected(stored, samples, i)
    {
      assert init[..i + 1] == samples[..i + 1];
    }
    hide Corrected;
    var a, b, kept := NewestCorrected(stored, samples, 8), NewestCorrected(stored, init, 8),
                      NewestCorrected(stored, init, 7);
    forall i | 0 <= i < 7
      ensures a[i + 1] == kept[i] && b[i] == kept[i]
    {
      assert a[i + 1] == Corrected(stored, samples, n - 1 - i);
    }
  }

  /** The i-th event is a sample on which the calibration succeeds and the vector has a plausible length. */
  ghost predicate Confirms(start: Params, events: seq<Event>, i: nat)
    requires i < |events|
  {
    var p := After(start, events[..i]);
    && events[i].Magnetic?
    && Step(p.aoc, events[i].sample.v, p.ho, events[i].sample.stale).ok
    && Norm2(After(start, events[..i + 1]).hvec) <= 4900.0
  }

  /** The i-th event withdraws the status: too long a vector, or a request to recalibrate. */
  ghost predicate Withdraws(start: Params, events: seq<Event>, i: nat)
    requires i < |events|
  {
    || events[i].Recalibrate?
    || (events[i].Magnetic? && Norm2(After(start, events[..i + 1]).hvec) > 4900.0)
  }

  ghost predicate Confirmed(start: Params, events: seq<Event>) {
    exists i :: 0 <= i < |events| && Confirms(start, events, i) &&
                forall j :: i < j < |events| ==> !Withdraws(start, events, j)
  }

  lemma PrefixJudgements(start: Params, events: seq<Event>, i: nat)
    requires i < |events| - 1
    ensures Confirms(start, events, i) == Confirms(start, events[..|events| - 1], i)
    ensures Withdraws(start, events, i) == Withdraws(start, events[..|events| - 1], i)
  {
    hide After, Step, Norm2;
    var init := events[..|events| - 1];
    assert init[..i] == events[..i] && init[..i + 1] == events[..i + 1];
  }

  lemma ConfirmedStep(start: Params, events: seq<Event>)
    requires events != []
    ensures var last := |events| - 1;
            Confirmed(start, events) <==>
              Confirms(start, events, last) || (Confirmed(start, events[..last]) && !Withdraws(start, events, last))
  {
    hide Confirms, Withdraws;
    var last := |events| - 1;
    var init := events[..last];
    forall i | 0 <= i < last
      ensures Confirms(start, events, i) == Confirms(start, init, i)
      ensures Withdraws(start, events, i) == Withdraws(start, init, i)
    {
      PrefixJudgements(start, events, i);
    }
    if Confirmed(start, events) && !Confirms(start, events, last) {
      var i :| 0 <= i < |events| && Confirms(start, events, i) &&
               forall j :: i < j < |events| ==> !Withdraws(start, events, j);
      assert Confirms(start, init, i);
    }
    if Confirmed(start, init) && !Withdraws(start, events, last) {
      var i :| 0 <= i < |init| && Confirms(start, init, i) && forall j :: i < j < |init| ==> !Withdraws(start, init, j);
      assert Confirms(start, events, i);
    }
  }

  /** Main result: from status 0, the status is 3 exactly when some sample confirmed it and nothing since then
    withdrew it; otherwise it is 0. */
  lemma {:induction false} StatusHistory(start: Params, events: seq<Event>)
    requires start.hstatus == 0
    ensures After(start, events).hstatus == if Confirmed(start, events) then 3 else 0
  {
    if events == [] {
    } else {
      var last := |events| - 1;
      StatusHistory(start, events[..last]);
      ConfirmedStep(start, events);
      hide Step, Norm2, Confirmed, Mean, Live;
      assert events[..|events|] == events;
    }
  }

  /** Two runs of the same shape whose magnetometer samples differ by t. Accelerometer samples are unrelated. */
  ghost predicate EventsShifted(events: seq<Event>, events': seq<Event>, t: Vec) {
    && |events| == |events'|
    && forall i :: 0 <= i < |events| ==>
         match (events[i], events'[i])
         case (Magnetic(s), Magnetic(s')) => s'.v == Plus(s.v, t) && Shifted(s.stale, s'.stale, t)
         case (Acceleration(_), Acceleration(_)) => true
         case (Recalibrate, Recalibrate) => true
         case _ => false
  }

  lemma {:induction false} MagneticsShifted(events: seq<Event>, events': seq<Event>, t: Vec)
    requires EventsShifted(events, events', t)
    ensures SamplesShifted(Magnetics(events), Magnetics(events'), t)
  {
    hide Plus, Shifted;
    if events == [] {
    } else {
      var n := |events| - 1;
      MagneticsShifted(events[..n], events'[..n], t);
      var e, e' := events[n], events'[n];
    }
  }

  ghost predicate SameOutputs(p: Params, p': Params, t: Vec) {
    && p'.ho == Plus(p.ho, t)
    && p'.hvbuf == p.hvbuf
    && p'.hvec == p.hvec
    && p'.hstatus == p.hstatus
  }

  lemma CorrectionAbsorbsBias(p: Params, p': Params, last: Sample, last': Sample, t: Vec)
    requires SameOutputs(p, p', t) && last'.v == Plus(last.v, t)
    requires var o, o' := Step(p.aoc, last.v, p.ho, last.stale), Step(p'.aoc, last'.v, p'.ho, last'.stale);
             o'.ok == o.ok && o'.offset == Plus(o.offset, t)
    ensures SameOutputs(MagneticStep(p, last.v, last.stale), MagneticStep(p', last'.v, last'.stale), t)
  {
    hide Step, Mean, Live, Norm2, Pushed, Plus, Minus;
    DifferenceOfShifted(last.v, Step(p.aoc, last.v, p.ho, last.stale).offset, t);
  }

  /** Main result: a bias t added to every magnetometer sample, to the stored offset and to the uninitialised points
    moves the offset by t and is invisible in the averaging buffer, the reported vector and the status. */
  lemma {:induction false} BiasIsInvisible(p0: Params, stored: Vec, events: seq<Event>, events': seq<Event>, t: Vec)
    requires EventsShifted(events, events', t)
    requires SamplesInRange(Magnetics(events)) && SamplesInRange(Magnetics(events'))
    ensures SameOutputs(After(Restarted(p0, stored), events), After(Restarted(p0, Plus(stored, t)), events'), t)
  {
    if events == [] {
    } else {
      hide MagneticStep, AccelerationStep, SamplesInRange, Plus, Shifted;
      var n := |events| - 1;
      var init, init' := events[..n], events'[..n];
      var p, p' := After(Restarted(p0, stored), init), After(Restarted(p0, Plus(stored, t)), init');
      assert EventsShifted(init, init', t);
      match (events[n], events'[n])
      case (Magnetic(s), Magnetic(s')) =>
        PrefixInRange(Magnetics(init), s);
        PrefixInRange(Magnetics(init'), s');
        BiasIsInvisible(p0, stored, init, init', t);
        DecisionsAgree(p0, stored, events, events', t);
        CorrectionAbsorbsBias(p, p', s, s', t);
      case (Acceleration(a), Acceleration(a')) =>
        BiasIsInvisible(p0, stored, init, init', t);
        AccelerationLeavesMagnetics(p, a);
        AccelerationLeavesMagnetics(p', a');
      case (Recalibrate, Recalibrate) =>
        BiasIsInvisible(p0, stored, init, init', t);
    }
  }

  lemma DecisionsAgree(p0: Params, stored: Vec, events: seq<Event>, events': seq<Event>, t: Vec)
    requires EventsShifted(events, events', t) && events != []
    requires SamplesInRange(Magnetics(events)) && SamplesInRange(Magnetics(events'))
    requires events[|events| - 1].Magnetic? && events'[|events'| - 1].Magnetic?
    ensures var n := |events| - 1;
            var p, p' := After(Restarted(p0, stored), events[..n]), After(Restarted(p0, Plus(stored, t)), events'[..n]);
            var s, s' := events[n].sample, events'[n].sample;
            var o, o' := Step(p.aoc, s.v, p.ho, s.stale), Step(p'.aoc, s'.v, p'.ho, s'.stale);
            o'.ok == o.ok && o'.offset == Plus(o.offset, t)
  {
    hide *;
    MagneticsShifted(events, events', t);
    BiasInvariance(stored, Magnetics(events), Magnetics(events'), t);
    SameDecision(RunOf(stored, Magnetics(events)), RunOf(Plus(stored, t), Magnetics(events')), t);
    SameLength(events, events', t);
    OutcomeOfRun(p0, stored, events);
    OutcomeOfRun(p0, Plus(stored, t), events');
  }

  lemma SameDecision(r: Run, r': Run, t: Vec)
    requires InStep(r, r', t)
    ensures r'.ok == r.ok && r'.offset == Plus(r.offset, t)
  {
  }

  lemma SameLength(events: seq<Event>, events': seq<Event>, t: Vec)
    requires EventsShifted(events, events', t)
    ensures |events| == |events'|
  {
  }

  lemma OutcomeOfRun(p0: Params, stored: Vec, events: seq<Event>)
    requires events != [] && events[|events| - 1].Magnetic?
    ensures var n := |events| - 1;
            var p := After(Restarted(p0, stored), events[..n]);
            var o := Step(p.aoc, events[n].sample.v, p.ho, events[n].sample.stale);
            var r := RunOf(stored, Magnetics(events));
            r.ok == o.ok && r.offset == o.offset
  {
    hide Step, After, NewestCorrected, Filled, Mean, Live;
    var n := |events| - 1;
    PipelineFollowsSamples(p0, stored, events[..n]);
    var init, last := Magnetics(events[..n]), events[n].sample;
    assert (init + [last])[..|init|] == init;
    assert RunOf(stored, init + [last]) == Advance(RunOf(stored, init), last);
  }

  // ---- the status, in terms of the calibration's own runs ----

  /** The i-th event is a sample on which the calibration reports success and the vector is at most 70 long. */
  ghost predicate Succeeds(p0: Params, stored: Vec, events: seq<Event>, i: nat)
    requires i < |events|
  {
    && events[i].Magnetic?
    && RunOf(stored, Magnetics(events[..i + 1])).ok
    && Norm2(After(Restarted(p0, stored), events[..i + 1]).hvec) <= 4900.0
  }

  lemma ConfirmsIffSucceeds(p0: Params, stored: Vec, events: seq<Event>, i: nat)
    requires i < |events|
    ensures Confirms(Restarted(p0, stored), events, i) == Succeeds(p0, stored, events, i)
  {
    hide Step, After, Restarted, RunOf, Magnetics, Norm2;
    if events[i].Magnetic? {
      var part := events[..i + 1];
      assert part[..i] == events[..i] && part[i] == events[i];
      OutcomeOfRun(p0, stored, part);
    }
  }

  /** Main result: after a restart with status 0 the status is 3 exactly when some sample's calibration succeeded with a
    vector of at most 70, and since then no vector was longer and no recalibration was requested; otherwise it is 0. */
  lemma StatusOfRun(p0: Params, stored: Vec, events: seq<Event>)
    requires p0.hstatus == 0
    ensures var confirmed := exists i :: 0 <= i < |events| && Succeeds(p0, stored, events, i) &&
                               forall j :: i < j < |events| ==> !Withdraws(Restarted(p0, stored), events, j);
            After(Restarted(p0, stored), events).hstatus == if confirmed then 3 else 0
  {
    StatusHistory(Restarted(p0, stored), events);
    hide After, Restarted, Withdraws, Confirms, Succeeds;
    forall i | 0 <= i < |events|
      ensures Confirms(Restarted(p0, stored), events, i) == Succeeds(p0, stored, events, i)
    {
      ConfirmsIffSucceeds(p0, stored, events, i);
    }
  }

  // ---- accelerometer samples on their own ----

  function NewestOf(accs: seq<Vec>, k: nat): (r: seq<Vec>)
    requires k <= |accs|
    ensures |r| == k
  {
    seq(k, i requires 0 <= i < k => accs[|accs| - 1 - i])
  }

  function Accelerations(accs: seq<Vec>): seq<Event> {
    seq(|accs|, i requires 0 <= i < |accs| => Acceleration(accs[i]))
  }

  lemma NewestOfStep(init: seq<Vec>, last: Vec, k: nat)
    requires k <= |init|
    ensures NewestOf(init + [last], k + 1) == [last] + NewestOf(init, k)
    ensures k > 0 ==> NewestOf(init, k)[..k - 1] == NewestOf(init, k - 1)
  {
  }

  lemma {:induction false} AccelerationBuffer(p0: Params, stored: Vec, accs: seq<Vec>)
    ensures After(Restarted(p0, stored), Accelerations(accs)).avbuf
         == Filled(NewestOf(accs, Min(|accs|, ADATA_SIZE)), ADATA_SIZE)
  {
    hide Filled, Pushed, NewestOf, Accelerations, Mean, Live, Restarted;
    if accs == [] {
      NoAccelerations(p0, stored);
    } else {
      var init, last := accs[..|accs| - 1], accs[|accs| - 1];
      AccelerationBuffer(p0, stored, init);
      AccelerationsStep(accs);
      assert init + [last] == accs;
      NewestOfPushed(init, last);
    }
  }

  lemma NewestOfPushed(init: seq<Vec>, last: Vec)
    ensures Pushed(Filled(NewestOf(init, Min(|init|, ADATA_SIZE)), ADATA_SIZE), last)
         == Filled(NewestOf(init + [last], Min(|init| + 1, ADATA_SIZE)), ADATA_SIZE)
  {
    hide Filled, Pushed;
    var k := Min(|init|, ADATA_SIZE);
    PushedOntoFilled(NewestOf(init, k), ADATA_SIZE, last);
    NewestOfStep(init, last, if k < ADATA_SIZE then k else k - 1);
    NewestOfStep(init, last, k);
  }

  lemma NoAccelerations(p0: Params, stored: Vec)
    ensures After(Restarted(p0, stored), Accelerations([])).avbuf == Filled(NewestOf([], 0), ADATA_SIZE)
  {
    assert Filled([], ADATA_SIZE) == Sentinels(ADATA_SIZE);
    assert Accelerations([]) == [] && NewestOf([], 0) == [];
  }

  lemma AccelerationsStep(accs: seq<Vec>)
    requires accs != []
    ensures var e := Accelerations(accs);
            && |e| == |accs| && e[|e| - 1] == Acceleration(accs[|accs| - 1])
            && e[..|e| - 1] == Accelerations(accs[..|accs| - 1])
  {
  }

  /** In a run of accelerometer samples only, the vector reported is the mean of the last eight or fewer of them. */
  lemma AccelerationIsMean(p0: Params, stored: Vec, accs: seq<Vec>)
    requires accs != [] && forall i :: 0 <= i < |accs| ==> !IsMissing(accs[i])
    ensures After(Restarted(p0, stored), Accelerations(accs)).avec == Mean(NewestOf(accs, Min(|accs|, 8)))
  {
    hide Filled, Mean, Live, Pushed, IsMissing;
    AccelerationBuffer(p0, stored, accs);
    AccelerationsStep(accs);
    var k := Min(|accs|, ADATA_SIZE);
    var entries := NewestOf(accs, k);
    LiveOfFilled(entries, ADATA_SIZE, NAVE);
    assert entries[..Min(k, NAVE)] == NewestOf(accs, Min(|accs|, 8));
  }
}
