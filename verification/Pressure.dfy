/** The pressure driver's moving average (sensors/lps331ap_input.c): a ring of samples with a running sum. */
module Pressure {

  const NR_SAMPLES := 16

  datatype InputEvent = AbsPressure(value: int) | Syn | Other

  function Sum(s: seq<int>): int {
    if s == [] then 0 else Sum(s[..|s| - 1]) + s[|s| - 1]
  }

  /** The samples the average is over: the last sixteen, or all of them. */
  function Window(history: seq<int>): (w: seq<int>)
    ensures |w| == if |history| < NR_SAMPLES then |history| else NR_SAMPLES
  {
    if |history| < NR_SAMPLES then history else history[|history| - NR_SAMPLES..]
  }

  /** C division of integers truncates towards zero. */
  function TruncatingQuotient(a: int, n: int): int
    requires n > 0
  {
    if a >= 0 then a / n else -((-a) / n)
  }

  /** The value reported after a history of samples. */
  function Average(history: seq<int>): int
    requires history != []
  {
    TruncatingQuotient(Sum(Window(history)), |Window(history)|)
  }

  lemma {:induction false} SumOfTail(s: seq<int>)
    requires s != []
    ensures Sum(s) == s[0] + Sum(s[1..])
  {
    if |s| == 1 {
    } else {
      SumOfTail(s[..|s| - 1]);
      assert s[..|s| - 1][1..] == s[1..][..|s| - 2];
    }
  }

  /** How the window and its sum move when a sample arrives. */
  lemma WindowMoves(history: seq<int>, value: int)
    ensures var w, w' := Window(history), Window(history + [value]);
            && w' == (if |w| == NR_SAMPLES then w[1..] else w) + [value]
            && Sum(w') == Sum(w) - (if |w| == NR_SAMPLES then w[0] else 0) + value
  {
    var w, w' := Window(history), Window(history + [value]);
    assert w' == (if |w| == NR_SAMPLES then w[1..] else w) + [value];
    assert w'[..|w'| - 1] == if |w| == NR_SAMPLES then w[1..] else w;
    if |w| == NR_SAMPLES {
      SumOfTail(w);
    }
  }

  /** Each sample of the window is in the ring, at its number modulo the size of the ring. */
  ghost predicate RingHolds(ring: seq<int>, history: seq<int>)
    requires |ring| == NR_SAMPLES
  {
    forall k :: |history| - NR_SAMPLES <= k < |history| && 0 <= k ==> ring[k % NR_SAMPLES] == history[k]
  }

  lemma RingMoves(ring: seq<int>, history: seq<int>, value: int)
    requires |ring| == NR_SAMPLES && RingHolds(ring, history)
    ensures RingHolds(ring[|history| % NR_SAMPLES := value], history + [value])
    ensures |history| >= NR_SAMPLES ==> ring[|history| % NR_SAMPLES] == Window(history)[0]
    ensures (|history| % NR_SAMPLES + 1) % NR_SAMPLES == |history + [value]| % NR_SAMPLES
  {
    var n, slot := |history|, |history| % NR_SAMPLES;
    SlotOf(n);
    var history', ring' := history + [value], ring[slot := value];
    forall k | |history'| - NR_SAMPLES <= k < |history'| && 0 <= k
      ensures ring'[k % NR_SAMPLES] == history'[k]
    {
      if k < n {
        OtherSlot(n, k);
        assert ring[k % NR_SAMPLES] == history[k];
      }
    }
    if n >= NR_SAMPLES {
      assert ring[(n - NR_SAMPLES) % NR_SAMPLES] == history[n - NR_SAMPLES];
    }
  }

  lemma SlotOf(n: nat)
    ensures n >= NR_SAMPLES ==> (n - NR_SAMPLES) % NR_SAMPLES == n % NR_SAMPLES
    ensures (n % NR_SAMPLES + 1) % NR_SAMPLES == (n + 1) % NR_SAMPLES
  {
  }

  lemma OtherSlot(n: nat, k: nat)
    requires n - NR_SAMPLES < k < n
    ensures k % NR_SAMPLES != n % NR_SAMPLES
  {
  }

  class Filter {
    const mem: array<int>
    var sum: int
    var currentSample: nat
    var numSamples: nat
    /** The samples since activation. */
    ghost var history: seq<int>

    ghost predicate Valid()
      reads this, mem
    {
      && mem.Length == NR_SAMPLES
      && numSamples == |Window(history)|
      && currentSample == |history| % NR_SAMPLES
      && sum == Sum(Window(history))
      && RingHolds(mem[..], history)
    }

    constructor ()
      ensures Valid() && fresh(mem) && history == []
    {
      mem := new int[NR_SAMPLES];
      sum, currentSample, numSamples, history := 0, 0, 0, [];
    }

    /** The enabling part of `lps331ap_input_activate`: opening the device starts a new history. */
    method Activate(enable: bool, fd: int, newFd: int) returns (rv: int, fd': int)
      requires Valid()
      modifies this
      ensures Valid()
      ensures enable && fd < 0 && newFd >= 0 ==> history == [] && rv == 0 && fd' == newFd
      ensures enable && fd < 0 && newFd < 0 ==> history == old(history) && rv == -1 && fd' == fd
      ensures !(enable && fd < 0) ==> history == old(history) && rv == 0 && fd' == if !enable && fd > 0 then -1 else fd
    {
      if enable && fd < 0 {
        if newFd < 0 {
          return -1, fd;
        }
        currentSample, numSamples, sum, history := 0, 0, 0, [];
        return 0, newFd;
      } else if !enable && fd > 0 {
        return 0, -1;
      }
      return 0, fd;
    }

    /** The ABS_PRESSURE case of `lps331ap_input_read`. */
    method AddSample(value: int)
      requires Valid()
      modifies this, mem
      ensures Valid() && history == old(history) + [value]
    {
      hide Sum, RingHolds, Window;
      WindowMoves(history, value);
      RingMoves(mem[..], history, value);
      if numSamples == NR_SAMPLES {
        sum := sum - mem[currentSample];
      } else {
        numSamples := numSamples + 1;
      }
      mem[currentSample] := value;
      currentSample := currentSample + 1;
      sum := sum + value;
      currentSample := currentSample % NR_SAMPLES;
      history := history + [value];
    }

    /** `lps331ap_input_read`: the averages reported for a batch of events. A report before the first sample divides by
      zero: nothing is claimed about what the processor does then, so the batch ends there, with trapped set. */
    method Read(events: seq<InputEvent>) returns (reports: seq<int>, trapped: bool)
      requires Valid()
      modifies this, mem
      ensures Valid()
      ensures Batch(history, reports, trapped) == Processed(old(history), events, [])
      ensures trapped == ReportsTooEarly(old(history), events)
    {
      hide Sum, Window, ReportsTooEarly;
      TrapsIffTooEarly(history, events, []);
      reports, trapped := [], false;
      for i := 0 to |events|
        invariant Valid()
        invariant Processed(history, events[i..], reports) == Processed(old(history), events, [])
      {
        assert events[i..][1..] == events[i + 1..];
        match events[i]
        case AbsPressure(value) => AddSample(value);
        case Syn =>
          if numSamples == 0 {
            return reports, true;
          }
          reports := reports + [TruncatingQuotient(sum, numSamples)];
        case Other =>
      }
    }
  }

  /** What a batch of events leads to: the samples since activation, the reports, and whether a report divided by
    zero. */
  datatype Batch = Batch(history: seq<int>, reports: seq<int>, trapped: bool)

  function Processed(history: seq<int>, events: seq<InputEvent>, reports: seq<int>): Batch
    decreases |events|
  {
    if events == [] then Batch(history, reports, false) else
    match events[0]
    case AbsPressure(value) => Processed(history + [value], events[1..], reports)
    case Syn =>
      if history == [] then Batch(history, reports, true)
      else Processed(history, events[1..], reports + [Average(history)])
    case Other => Processed(history, events[1..], reports)
  }

  /** A report has no sample before it, neither in the batch nor since activation. */
  predicate ReportsTooEarly(history: seq<int>, events: seq<InputEvent>) {
    history == [] &&
    exists i :: 0 <= i < |events| && events[i] == Syn && forall k :: 0 <= k < i ==> !events[k].AbsPressure?
  }

  lemma {:induction false} TrapsIffTooEarly(history: seq<int>, events: seq<InputEvent>, reports: seq<int>)
    ensures Processed(history, events, reports).trapped == ReportsTooEarly(history, events)
    decreases |events|
  {
    if events == [] {
    } else {
      hide Average;
      var rest := events[1..];
      assert forall i :: 0 <= i < |rest| ==> rest[i] == events[i + 1];
      assert forall i :: 0 < i < |events| ==> events[i] == rest[i - 1];
      match events[0]
      case AbsPressure(value) => TrapsIffTooEarly(history + [value], rest, reports);
      case Syn =>
        if history == [] {
          assert events[0] == Syn;
        } else {
          TrapsIffTooEarly(history, rest, reports + [Average(history)]);
        }
      case Other =>
        TrapsIffTooEarly(history, rest, reports);
        if j :| 0 <= j < |rest| && rest[j] == Syn && forall k :: 0 <= k < j ==> !rest[k].AbsPressure? {
          assert events[j + 1] == Syn;
        }
    }
  }

  lemma {:induction false} SumBounds(s: seq<int>, lo: int, hi: int)
    requires forall i :: 0 <= i < |s| ==> lo <= s[i] <= hi
    ensures |s| * lo <= Sum(s) <= |s| * hi
  {
    if s == [] {
    } else {
      SumBounds(s[..|s| - 1], lo, hi);
    }
  }

  /** The reported value lies between the least and the greatest sample of the window. */
  lemma AverageInWindow(history: seq<int>, lo: int, hi: int)
    requires history != []
    requires forall i :: 0 <= i < |Window(history)| ==> lo <= Window(history)[i] <= hi
    ensures lo <= Average(history) <= hi
  {
    hide Window;
    var w := Window(history);
    SumBounds(w, lo, hi);
    QuotientBounds(Sum(w), |w|, lo, hi);
  }

  lemma Monotone(n: int, x: int, y: int)
    requires n > 0 && x <= y
    ensures n * x <= n * y
  {
  }

  lemma FloorBounds(a: int, n: int, lo: int, hi: int)
    requires n > 0 && n * lo <= a <= n * hi
    ensures lo <= a / n <= hi
  {
    var q := a / n;
    assert a == n * q + a % n;
    if q < lo {
      Monotone(n, q + 1, lo);
    }
    if q > hi {
      Monotone(n, hi + 1, q);
    }
  }

  lemma QuotientBounds(a: int, n: int, lo: int, hi: int)
    requires n > 0 && n * lo <= a <= n * hi
    ensures lo <= TruncatingQuotient(a, n) <= hi
  {
    if a >= 0 {
      FloorBounds(a, n, lo, hi);
    } else {
      FloorBounds(-a, n, -hi, -lo);
    }
  }

  predicate FitsInt32(x: int) {
    -0x8000_0000 <= x < 0x8000_0000
  }

  /** With samples below 2^27 neither the sum with the oldest sample taken out, nor the new sum, overflows 32 bits. */
  lemma SumsFit(history: seq<int>, value: int)
    requires forall i :: 0 <= i < |history| ==> -0x800_0000 < history[i] < 0x800_0000
    requires -0x800_0000 < value < 0x800_0000
    ensures var w := Window(history);
            && FitsInt32(Sum(w))
            && FitsInt32(Sum(w) - (if |w| == NR_SAMPLES then w[0] else 0))
            && FitsInt32(Sum(Window(history + [value])))
  {
    var w := Window(history);
    SumBounds(w, -0x7FF_FFFF, 0x7FF_FFFF);
    WindowMoves(history, value);
    if |w| == NR_SAMPLES {
      SumOfTail(w);
      SumBounds(w[1..], -0x7FF_FFFF, 0x7FF_FFFF);
    }
    SumBounds(Window(history + [value]), -0x7FF_FFFF, 0x7FF_FFFF);
  }

  /** The limit is sharp: sixteen samples of 2^27 overflow. */
  lemma LimitIsSharp(history: seq<int>)
    requires |history| == NR_SAMPLES && forall i :: 0 <= i < NR_SAMPLES ==> history[i] == 0x800_0000
    ensures !FitsInt32(Sum(Window(history)))
  {
    assert Window(history) == history;
    SumBounds(history, 0x800_0000, 0x800_0000);
  }

  // ---- what a batch reports ----

  /** The samples among the first n events of a batch. */
  function SamplesIn(events: seq<InputEvent>, n: nat): seq<int>
    requires n <= |events|
  {
    if n == 0 then [] else
    match events[n - 1]
    case AbsPressure(value) => SamplesIn(events, n - 1) + [value]
    case _ => SamplesIn(events, n - 1)
  }

  /** How many reports are asked for among the first n events. */
  function SynsIn(events: seq<InputEvent>, n: nat): nat
    requires n <= |events|
  {
    if n == 0 then 0 else SynsIn(events, n - 1) + if events[n - 1] == Syn then 1 else 0
  }

  /** A batch is processed event by event. */
  lemma {:induction false} ProcessedStep(
      history: seq<int>, events: seq<InputEvent>, reports: seq<int>, last: InputEvent)
    ensures var b := Processed(history, events, reports);
            Processed(history, events + [last], reports)
            == if b.trapped then b else Processed(b.history, [last], b.reports)
    decreases |events|
  {
    hide Average;
    if events == [] {
      assert [] + [last] == [last];
    } else {
      var rest := events[1..];
      assert (events + [last])[1..] == rest + [last];
      match events[0]
      case AbsPressure(value) => ProcessedStep(history + [value], rest, reports, last);
      case Syn =>
        if history != [] {
          ProcessedStep(history, rest, reports + [Average(history)], last);
        }
      case Other => ProcessedStep(history, rest, reports, last);
    }
  }

  /** The i-th event asks for a report, which is the average of the samples up to there. */
  ghost predicate ReportIsAverage(b: Batch, history: seq<int>, events: seq<InputEvent>, i: nat)
    requires i < |events|
  {
    events[i] == Syn ==>
      && SynsIn(events, i) < |b.reports| && history + SamplesIn(events, i) != []
      && b.reports[SynsIn(events, i)] == Average(history + SamplesIn(events, i))
  }

  /** After n events the samples are in the history, and there is one report for each one asked for, in order. */
  ghost predicate ReportsAreAverages(b: Batch, history: seq<int>, events: seq<InputEvent>, n: nat)
    requires n <= |events|
  {
    && b.history == history + SamplesIn(events, n)
    && |b.reports| == SynsIn(events, n)
    && forall i :: 0 <= i < n ==> ReportIsAverage(b, history, events, i)
  }

  /** Main result: unless a report divides by zero, the batch appends its samples to the history, and each report is the
    average at the time it was asked for. */
  lemma {:induction false} ReportsOfBatch(history: seq<int>, events: seq<InputEvent>)
    ensures var b := Processed(history, events, []);
            !b.trapped ==> ReportsAreAverages(b, history, events, |events|)
    decreases |events|
  {
    if events == [] {
      assert history + [] == history;
    } else {
      hide Average, Processed, ReportsAreAverages;
      var n := |events| - 1;
      var init, last := events[..n], events[n];
      assert events == init + [last];
      ReportsOfBatch(history, init);
      ProcessedStep(history, init, [], last);
      var b := Processed(history, init, []);
      if !b.trapped {
        SinglyProcessed(b, last);
        SameReports(b, history, events, n);
        LastReport(history, events, b, Processed(history, events, []));
      }
    }
  }

  lemma SameReports(b: Batch, history: seq<int>, events: seq<InputEvent>, n: nat)
    requires n <= |events| && ReportsAreAverages(b, history, events[..n], n)
    ensures ReportsAreAverages(b, history, events, n)
  {
    hide Average, SamplesIn, SynsIn;
    PrefixCounts(events, n);
    forall i | 0 <= i < n
      ensures ReportIsAverage(b, history, events, i)
    {
      assert ReportIsAverage(b, history, events[..n], i);
    }
  }

  lemma {:induction false} PrefixCounts(events: seq<InputEvent>, n: nat)
    requires n <= |events|
    ensures forall i :: 0 <= i <= n ==>
              SamplesIn(events, i) == SamplesIn(events[..n], i) && SynsIn(events, i) == SynsIn(events[..n], i)
  {
    forall i | 0 <= i <= n
      ensures SamplesIn(events, i) == SamplesIn(events[..n], i) && SynsIn(events, i) == SynsIn(events[..n], i)
    {
      PrefixCount(events, n, i);
    }
  }

  lemma {:induction false} PrefixCount(events: seq<InputEvent>, n: nat, i: nat)
    requires i <= n <= |events|
    ensures SamplesIn(events, i) == SamplesIn(events[..n], i) && SynsIn(events, i) == SynsIn(events[..n], i)
  {
    if i == 0 {
    } else {
      PrefixCount(events, n, i - 1);
    }
  }

  /** The effect of one event. */
  ghost predicate FollowsBatch(b: Batch, last: InputEvent, b': Batch) {
    match last
    case AbsPressure(value) => b' == b.(history := b.history + [value])
    case Syn =>
      if b.history == [] then b' == b.(trapped := true)
      else b' == b.(reports := b.reports + [Average(b.history)])
    case Other => b' == b
  }

  lemma SinglyProcessed(b: Batch, last: InputEvent)
    requires !b.trapped
    ensures FollowsBatch(b, last, Processed(b.history, [last], b.reports))
  {
    assert [last][1..] == [];
  }

  lemma LastReport(history: seq<int>, events: seq<InputEvent>, b: Batch, b': Batch)
    requires events != [] && FollowsBatch(b, events[|events| - 1], b')
    requires ReportsAreAverages(b, history, events, |events| - 1)
    ensures !b'.trapped ==> ReportsAreAverages(b', history, events, |events|)
  {
    hide Average;
    var n := |events| - 1;
    if !b'.trapped {
      forall i | 0 <= i < n
        ensures ReportIsAverage(b', history, events, i)
      {
        assert ReportIsAverage(b, history, events, i);
      }
      CountsAfter(history, events, n);
      hide SamplesIn, SynsIn;
    }
  }

  lemma CountsAfter(history: seq<int>, events: seq<InputEvent>, n: nat)
    requires n < |events|
    ensures SynsIn(events, n + 1) == SynsIn(events, n) + if events[n] == Syn then 1 else 0
    ensures history + SamplesIn(events, n + 1)
         == history + SamplesIn(events, n) + match events[n] case AbsPressure(value) => [value] case _ => []
  {
  }

  /** The quotient is the exact one rounded towards zero. */
  lemma QuotientTowardsZero(a: int, n: int)
    requires n > 0
    ensures var q := TruncatingQuotient(a, n);
            if a >= 0 then q * n <= a < q * n + n else q * n - n < a <= q * n
  {
  }

  /** The average is over the last sixteen samples, or all of them. */
  lemma AverageOfLastSixteen(history: seq<int>)
    requires history != []
    ensures var w := if |history| < 16 then history else history[|history| - 16..];
            Average(history) == TruncatingQuotient(Sum(w), |w|)
  {
  }
}
