/** Packet timestamps rebased to zero and repaired against the packet-arrival clock. */
module TimestampNormalizer {
  import opened Prelude

  datatype Sample = Sample(input: Option<int>, arrival: int)

  datatype State = State(ticks: int, repair: bool, initialized: bool, firstInput: Option<int>,
                         lastInput: Option<int>, firstArrival: int, lastArrival: int, lastOutput: int)

  function Reset(ticks: int, repair: bool): State {
    State(Max(ticks, 1), repair, false, None, None, 0, 0, 0)
  }

  function Clamp(x: int, lower: int, upper: int): int
    requires lower <= upper
  {
    if x < lower then lower else if upper < x then upper else x
  }

  // ---- Arrival repair ----

  function ArrivalDelta(st: State, s: Sample): (d: int)
    ensures d >= 1
  {
    Max(s.arrival - st.lastArrival, 1)
  }

  /** The source delta lies between a quarter of the arrival delta and two seconds (or four deltas). */
  predicate Plausible(ticks: int, arrivalDelta: int, inputDelta: int) {
    var minimum := if arrivalDelta >= Max(ticks / 100, 1) then Max(arrivalDelta / 4, 1) else 1;
    minimum <= inputDelta <= Max(ticks * 2, arrivalDelta * 4)
  }

  function Wanted(st: State, s: Sample): int {
    if s.input.Some? && st.lastInput.Some?
       && Plausible(st.ticks, ArrivalDelta(st, s), s.input.value - st.lastInput.value)
    then s.input.value - st.lastInput.value
    else ArrivalDelta(st, s)
  }

  function Elapsed(st: State, s: Sample): (e: int)
    ensures e >= 0
  {
    Max(s.arrival - st.firstArrival, 0)
  }

  function Lower(st: State, s: Sample): (l: int)
    ensures l > st.lastOutput
  {
    Max(st.lastOutput + 1, if Elapsed(st, s) > 2 * st.ticks then Elapsed(st, s) - 2 * st.ticks else 0)
  }

  function Upper(st: State, s: Sample): (u: int)
    ensures u >= Lower(st, s)
  {
    Max(Lower(st, s), Elapsed(st, s) + 2 * st.ticks)
  }

  function NextState(st: State, s: Sample): State {
    if !st.initialized then
      st.(initialized := true, firstInput := s.input, lastInput := s.input, firstArrival := s.arrival,
          lastArrival := s.arrival, lastOutput := 0)
    else if !st.repair then
      var first := if s.input.Some? && st.firstInput.None? then s.input else st.firstInput;
      var output := if s.input.Some? && first.Some? then Max(s.input.value - first.value, st.lastOutput + 1)
                    else st.lastOutput + 1;
      st.(firstInput := first, lastInput := s.input, lastArrival := s.arrival, lastOutput := output)
    else
      st.(lastInput := s.input, lastArrival := s.arrival,
          lastOutput := Clamp(st.lastOutput + Wanted(st, s), Lower(st, s), Upper(st, s)))
  }

  // ---- Whole runs ----

  function After(ticks: int, repair: bool, run: seq<Sample>): State {
    if run == [] then Reset(ticks, repair)
    else NextState(After(ticks, repair, run[..|run| - 1]), run[|run| - 1])
  }

  /** The timestamp given to packet `n` of the run. */
  function Output(ticks: int, repair: bool, run: seq<Sample>, n: nat): int
    requires n < |run|
  {
    After(ticks, repair, run[..n + 1]).lastOutput
  }

  /** Arrival ticks elapsed since the first packet. */
  function ElapsedAt(run: seq<Sample>, n: nat): int
    requires n < |run|
  {
    Max(run[n].arrival - run[0].arrival, 0)
  }

  lemma AfterStep(ticks: int, repair: bool, run: seq<Sample>, n: nat)
    requires n < |run|
    ensures After(ticks, repair, run[..n + 1]) == NextState(After(ticks, repair, run[..n]), run[n])
  {
    assert run[..n + 1][..n] == run[..n];
  }

  lemma {:induction false} RunFacts(ticks: int, repair: bool, run: seq<Sample>, n: nat)
    requires n < |run|
    ensures var st := After(ticks, repair, run[..n + 1]);
            && st.initialized && st.ticks == Max(ticks, 1) && st.repair == repair
            && st.firstArrival == run[0].arrival && st.lastArrival == run[n].arrival
            && st.lastInput == run[n].input
    ensures n == 0 ==> After(ticks, repair, run[..1]).lastOutput == 0
  {
    AfterStep(ticks, repair, run, n);
    if n > 0 {
      RunFacts(ticks, repair, run, n - 1);
    } else {
      assert run[..0] == [];
    }
  }

  /** One repaired step lies strictly above its predecessor and inside the skew band around arrival. */
  lemma RepairedStep(ticks: int, run: seq<Sample>, n: nat)
    requires 0 < n < |run|
    ensures var o, o' := Output(ticks, true, run, n - 1), Output(ticks, true, run, n);
            var e, t := ElapsedAt(run, n), Max(ticks, 1);
            o + 1 <= o' && e - 2 * t <= o' && o' <= Max(Max(o + 1, e - 2 * t), e + 2 * t)
  {
    RunFacts(ticks, true, run, n - 1);
    AfterStep(ticks, true, run, n);
    hide After, Wanted, NextState;
    StaysInBand(After(ticks, true, run[..n]), run[n]);
  }

  lemma StaysInBand(st: State, s: Sample)
    requires st.initialized && st.repair && st.ticks >= 1
    ensures var o, o' := st.lastOutput, NextState(st, s).lastOutput;
            var e, t := Elapsed(st, s), st.ticks;
            o + 1 <= o' && e - 2 * t <= o' && o' <= Max(Max(o + 1, e - 2 * t), e + 2 * t)
  {
    hide Wanted;
  }

  /** Outputs strictly increase, with or without repair, whatever the inputs and arrivals. */
  lemma {:induction false} StrictlyIncreasing(ticks: int, repair: bool, run: seq<Sample>, i: nat, k: nat)
    requires i < k < |run|
    ensures Output(ticks, repair, run, i) < Output(ticks, repair, run, k)
    decreases k
  {
    RunFacts(ticks, repair, run, k - 1);
    AfterStep(ticks, repair, run, k);
    hide After, Wanted, Plausible;
    if i < k - 1 {
      StrictlyIncreasing(ticks, repair, run, i, k - 1);
    }
  }

  lemma DriftBelow(ticks: int, run: seq<Sample>, n: nat)
    requires n < |run|
    ensures Output(ticks, true, run, n) >= ElapsedAt(run, n) - 2 * Max(ticks, 1)
  {
    if n == 0 {
      RunFacts(ticks, true, run, 0);
    } else {
      RepairedStep(ticks, run, n);
    }
  }

  /** The largest of `e_k + 2T + (n - k)` over all packets `k` up to `n`. */
  function Envelope(ticks: int, run: seq<Sample>, n: nat): (b: int)
    requires n < |run|
    ensures forall k :: 0 <= k <= n ==> ElapsedAt(run, k) + 2 * Max(ticks, 1) + (n - k) <= b
    ensures exists k :: 0 <= k <= n && b == ElapsedAt(run, k) + 2 * Max(ticks, 1) + (n - k)
  {
    if n == 0 then 2 * Max(ticks, 1)
    else
      var prior := Envelope(ticks, run, n - 1);
      assert exists k :: 0 <= k <= n - 1 && prior + 1 == ElapsedAt(run, k) + 2 * Max(ticks, 1) + (n - k);
      Max(prior + 1, ElapsedAt(run, n) + 2 * Max(ticks, 1))
  }

  lemma {:induction false} DriftAbove(ticks: int, run: seq<Sample>, n: nat)
    requires n < |run|
    ensures Output(ticks, true, run, n) <= Envelope(ticks, run, n)
  {
    if n == 0 {
      RunFacts(ticks, true, run, 0);
    } else {
      RepairedStep(ticks, run, n);
      DriftAbove(ticks, run, n - 1);
      hide After;
    }
  }

  /** Output `n` is at most two seconds ahead of arrival. */
  predicate InBand(ticks: int, run: seq<Sample>, n: nat)
    requires n < |run|
  {
    Output(ticks, true, run, n) <= ElapsedAt(run, n) + 2 * Max(ticks, 1)
  }

  /** When packet `n` arrives, the tick after the previous output still lies in its band. */
  predicate HasRoom(ticks: int, run: seq<Sample>, n: nat)
    requires 0 < n < |run|
  {
    Output(ticks, true, run, n - 1) + 1 <= ElapsedAt(run, n) + 2 * Max(ticks, 1)
  }

  /** One output is in its band exactly when there is room for it on arrival, whatever its source says. */
  lemma InBandExactlyWithRoom(ticks: int, run: seq<Sample>, n: nat)
    requires 0 < n < |run|
    ensures InBand(ticks, run, n) <==> HasRoom(ticks, run, n)
  {
    RepairedStep(ticks, run, n);
    hide Output;
  }

  /** A whole run stays in the band exactly when every packet finds room on arrival. */
  lemma RunInBandExactly(ticks: int, run: seq<Sample>)
    ensures (forall n :: 0 <= n < |run| ==> InBand(ticks, run, n)) <==>
            (forall n :: 0 < n < |run| ==> HasRoom(ticks, run, n))
  {
    if run != [] {
      FirstIsInBand(ticks, run);
    }
    forall n | 0 < n < |run| ensures InBand(ticks, run, n) <==> HasRoom(ticks, run, n) {
      InBandExactlyWithRoom(ticks, run, n);
    }
    hide InBand, HasRoom;
  }

  lemma FirstIsInBand(ticks: int, run: seq<Sample>)
    requires run != []
    ensures InBand(ticks, run, 0)
  {
    RunFacts(ticks, true, run, 0);
  }

  /** A packet that arrives later than its predecessor keeps the run in the band. */
  lemma LaterArrivalHasRoom(ticks: int, run: seq<Sample>, n: nat)
    requires 0 < n < |run| && ElapsedAt(run, n - 1) < ElapsedAt(run, n) && InBand(ticks, run, n - 1)
    ensures HasRoom(ticks, run, n)
  {
    hide Output;
  }

  /** With strictly increasing arrivals every packet finds room: the drift never exceeds two seconds either way. */
  lemma {:induction false} BoundedDrift(ticks: int, run: seq<Sample>, n: nat)
    requires n < |run|
    requires forall k :: 0 <= k < |run| - 1 ==> run[k].arrival < run[k + 1].arrival
    ensures var o, e := Output(ticks, true, run, n), run[n].arrival - run[0].arrival;
            e - 2 * Max(ticks, 1) <= o <= e + 2 * Max(ticks, 1)
  {
    ArrivalsGrow(run, n);
    DriftBelow(ticks, run, n);
    if n == 0 {
      FirstIsInBand(ticks, run);
    } else {
      BoundedDrift(ticks, run, n - 1);
      ArrivalsGrow(run, n - 1);
      assert run[n - 1].arrival < run[n - 1 + 1].arrival;
      LaterArrivalHasRoom(ticks, run, n);
      InBandExactlyWithRoom(ticks, run, n);
    }
    hide Output;
  }

  lemma {:induction false} ArrivalsGrow(run: seq<Sample>, n: nat)
    requires n < |run| && forall k :: 0 <= k < |run| - 1 ==> run[k].arrival < run[k + 1].arrival
    ensures ElapsedAt(run, n) == run[n].arrival - run[0].arrival
  {
    if n > 0 {
      ArrivalsGrow(run, n - 1);
      assert run[n - 1].arrival < run[n - 1 + 1].arrival;
    }
  }

  /** Packets that arrive together find no room: here the third output lies beyond arrival plus 2T. */
  lemma DriftBoundNeedsGrowingArrivals()
    ensures var run := [Sample(Some(0), 0), Sample(Some(2), 0), Sample(Some(4), 0)];
            Output(1, true, run, 2) == 3 && !InBand(1, run, 2) && !HasRoom(1, run, 2)
  {
    var run := [Sample(Some(0), 0), Sample(Some(2), 0), Sample(Some(4), 0)];
    SecondIsAhead(run);
    AfterStep(1, true, run, 2);
    CoincidentArrivals(State(1, true, true, Some(0), Some(0), 0, 0, 0));
    hide After, NextState;
    assert Output(1, true, run, 1) == 2 && Output(1, true, run, 2) == 3;
    assert ElapsedAt(run, 2) == 0;
    hide Output, ElapsedAt;
  }

  lemma SecondIsAhead(run: seq<Sample>)
    requires |run| == 3 && run[0] == Sample(Some(0), 0) && run[1] == Sample(Some(2), 0)
    ensures After(1, true, run[..2]) == State(1, true, true, Some(0), Some(2), 0, 0, 2)
  {
    AfterStep(1, true, run, 0);
    AfterStep(1, true, run, 1);
    assert run[..0] == [];
    assert After(1, true, run[..1]) == State(1, true, true, Some(0), Some(0), 0, 0, 0);
    hide After;
    CoincidentArrivals(State(1, true, true, Some(0), Some(0), 0, 0, 0));
    hide NextState;
  }

  lemma CoincidentArrivals(first: State)
    requires first == State(1, true, true, Some(0), Some(0), 0, 0, 0)
    ensures NextState(first, Sample(Some(2), 0)) == first.(lastInput := Some(2), lastOutput := 2)
    ensures NextState(first.(lastInput := Some(2), lastOutput := 2), Sample(Some(4), 0)).lastOutput == 3
  {
  }

  // ---- Which arrivals keep every source in the band ----

  ghost predicate HasArrivals(run: seq<Sample>, arrivals: seq<int>) {
    |run| == |arrivals| && forall i :: 0 <= i < |run| ==> run[i].arrival == arrivals[i]
  }

  /** Whatever the packets say of themselves, their outputs are at most two seconds ahead of these arrivals. */
  ghost predicate EverySourceInBand(ticks: int, arrivals: seq<int>) {
    forall run: seq<Sample>, n: nat :: HasArrivals(run, arrivals) && n < |run| ==> InBand(ticks, run, n)
  }

  function Since(arrivals: seq<int>, n: nat): int
    requires n < |arrivals|
  {
    Max(arrivals[n] - arrivals[0], 0)
  }

  /**
   The third packet arrives later than the first, and by more than what the second output can be ahead
   beyond two seconds; from the fourth on each packet arrives later than its predecessor.
   */
  predicate Steady(ticks: int, arrivals: seq<int>) {
    && (|arrivals| > 2 ==> Since(arrivals, 2) > 0 && Since(arrivals, 2) > Lead(ticks, Since(arrivals, 1)))
    && forall n :: 2 < n < |arrivals| ==> Since(arrivals, n - 1) < Since(arrivals, n)
  }

  /** How far beyond two seconds a source can push the output of a second packet that arrives after `e` ticks. */
  function Lead(ticks: int, e: int): int {
    if 4 * e - 2 * Max(ticks, 1) < e then 4 * e - 2 * Max(ticks, 1) else e
  }

  /** The largest delta that is plausible for packet `n`. */
  function LargestDelta(ticks: int, arrivals: seq<int>, n: nat): int
    requires 0 < n < |arrivals|
  {
    Max(2 * Max(ticks, 1), 4 * Max(arrivals[n] - arrivals[n - 1], 1))
  }

  lemma DeltaIsBounded(st: State, s: Sample)
    requires st.ticks >= 1
    ensures Wanted(st, s) <= Max(2 * st.ticks, 4 * ArrivalDelta(st, s))
  {
  }

  lemma ClampedBelow(st: State, s: Sample, w: int)
    requires st.initialized && st.repair && Wanted(st, s) <= w && w >= 1 && st.lastOutput >= 0
    requires Elapsed(st, s) - 2 * st.ticks <= st.lastOutput + w
    ensures NextState(st, s).lastOutput <= st.lastOutput + w
  {
    hide Wanted;
  }

  /** The second output is at most the largest plausible delta. */
  lemma SecondOutput(ticks: int, run: seq<Sample>, arrivals: seq<int>)
    requires HasArrivals(run, arrivals) && |run| > 1
    ensures Output(ticks, true, run, 0) == 0 && HasRoom(ticks, run, 1)
    ensures Output(ticks, true, run, 1) <= LargestDelta(ticks, arrivals, 1)
  {
    RunFacts(ticks, true, run, 0);
    AfterStep(ticks, true, run, 1);
    hide After;
    var st := After(ticks, true, run[..1]);
    DeltaIsBounded(st, run[1]);
    ClampedBelow(st, run[1], LargestDelta(ticks, arrivals, 1));
    hide Wanted, NextState;
  }

  lemma SinceIs(run: seq<Sample>, arrivals: seq<int>, n: nat)
    requires HasArrivals(run, arrivals) && n < |run|
    ensures ElapsedAt(run, n) == Since(arrivals, n) >= 0
  {
  }

  lemma {:induction false} SteadyKeepsBand(ticks: int, arrivals: seq<int>, run: seq<Sample>, n: nat)
    requires Steady(ticks, arrivals) && HasArrivals(run, arrivals) && n < |run|
    ensures InBand(ticks, run, n)
  {
    if n == 0 {
      FirstIsInBand(ticks, run);
    } else {
      SteadyKeepsBand(ticks, arrivals, run, n - 1);
      SinceIs(run, arrivals, n - 1);
      SinceIs(run, arrivals, n);
      InBandExactlyWithRoom(ticks, run, n);
      if n <= 2 {
        SecondOutput(ticks, run, arrivals);
        hide Output;
      } else {
        hide Output, HasArrivals;
        LaterArrivalHasRoom(ticks, run, n);
      }
    }
  }

  // ---- The fastest source ----

  function FastestInput(ticks: int, arrivals: seq<int>, n: nat): int
    requires n < |arrivals|
  {
    if n == 0 then 0 else FastestInput(ticks, arrivals, n - 1) + LargestDelta(ticks, arrivals, n)
  }

  /** A source that advances as fast as is plausible. */
  function Fastest(ticks: int, arrivals: seq<int>): seq<Sample> {
    seq(|arrivals|, i requires 0 <= i < |arrivals| => Sample(Some(FastestInput(ticks, arrivals, i)), arrivals[i]))
  }

  lemma LargestIsWanted(st: State, s: Sample)
    requires st.ticks >= 1 && s.input.Some? && st.lastInput.Some?
    requires s.input.value - st.lastInput.value == Max(2 * st.ticks, 4 * ArrivalDelta(st, s))
    ensures Wanted(st, s) == s.input.value - st.lastInput.value
  {
  }

  lemma ClampedAbove(st: State, s: Sample)
    requires st.initialized && st.repair
    ensures var o, w := st.lastOutput, Wanted(st, s);
            NextState(st, s).lastOutput >= o + w || NextState(st, s).lastOutput >= Elapsed(st, s) + 2 * st.ticks
  {
    hide Wanted;
  }

  lemma FastestStep(ticks: int, arrivals: seq<int>, n: nat)
    requires 0 < n < |arrivals|
    ensures var run := Fastest(ticks, arrivals); var o' := Output(ticks, true, run, n);
            || o' >= Output(ticks, true, run, n - 1) + LargestDelta(ticks, arrivals, n)
            || o' >= Since(arrivals, n) + 2 * Max(ticks, 1)
  {
    var run := Fastest(ticks, arrivals);
    RunFacts(ticks, true, run, n - 1);
    AfterStep(ticks, true, run, n);
    hide After;
    var st := After(ticks, true, run[..n]);
    LargestIsWanted(st, run[n]);
    ClampedAbove(st, run[n]);
    hide Wanted, NextState;
  }

  /** From the third packet on the fastest source is at the edge of its band or beyond it. */
  lemma {:induction false} FastestReachesEdge(ticks: int, arrivals: seq<int>, n: nat)
    requires 2 <= n < |arrivals|
    ensures Output(ticks, true, Fastest(ticks, arrivals), n) >= Since(arrivals, n) + 2 * Max(ticks, 1)
  {
    FastestStep(ticks, arrivals, n);
    if n > 2 {
      FastestReachesEdge(ticks, arrivals, n - 1);
    } else {
      FastestStep(ticks, arrivals, 1);
      RunFacts(ticks, true, Fastest(ticks, arrivals), 0);
    }
    hide Output, Fastest;
  }

  lemma FastestHasArrivals(ticks: int, arrivals: seq<int>)
    ensures HasArrivals(Fastest(ticks, arrivals), arrivals)
  {
    hide FastestInput;
  }

  lemma UnsteadyLeavesBand(ticks: int, arrivals: seq<int>) returns (n: nat)
    requires !Steady(ticks, arrivals)
    ensures n < |arrivals| == |Fastest(ticks, arrivals)| && !InBand(ticks, Fastest(ticks, arrivals), n)
  {
    var run := Fastest(ticks, arrivals);
    FastestHasArrivals(ticks, arrivals);
    if exists k :: 2 < k < |arrivals| && Since(arrivals, k - 1) >= Since(arrivals, k) {
      n :| 2 < n < |arrivals| && Since(arrivals, n - 1) >= Since(arrivals, n);
      FastestReachesEdge(ticks, arrivals, n - 1);
    } else {
      n := 2;
      FastestStep(ticks, arrivals, 1);
      RunFacts(ticks, true, run, 0);
    }
    SinceIs(run, arrivals, n);
    hide Output, Fastest, HasArrivals;
    InBandExactlyWithRoom(ticks, run, n);
  }

  /**
   The exact condition that a caller can check on the arrivals alone: whatever the source says, every
   output stays within two seconds of its arrival if and only if the arrivals are steady.
   */
  lemma SteadyArrivalsDecide(ticks: int, arrivals: seq<int>)
    ensures EverySourceInBand(ticks, arrivals) <==> Steady(ticks, arrivals)
  {
    hide Steady, InBand, HasArrivals;
    if Steady(ticks, arrivals) {
      forall run: seq<Sample>, n: nat | HasArrivals(run, arrivals) && n < |run| ensures InBand(ticks, run, n) {
        SteadyKeepsBand(ticks, arrivals, run, n);
      }
    } else {
      var n := UnsteadyLeavesBand(ticks, arrivals);
      FastestHasArrivals(ticks, arrivals);
    }
  }

  // ---- When repair leaves the source alone ----

  /** Every source delta is plausible and the rebased source stays within two seconds of arrival. */
  ghost predicate Trustworthy(ticks: int, run: seq<Sample>) {
    && (forall k :: 0 <= k < |run| ==> run[k].input.Some?)
    && (forall k :: 0 < k < |run| ==>
          Plausible(Max(ticks, 1), Max(run[k].arrival - run[k - 1].arrival, 1),
                    run[k].input.value - run[k - 1].input.value))
    && (forall k :: 0 <= k < |run| ==>
          ElapsedAt(run, k) - 2 * Max(ticks, 1) <= run[k].input.value - run[0].input.value
            <= ElapsedAt(run, k) + 2 * Max(ticks, 1))
  }

  lemma {:induction false} TrustedSourceIsKept(ticks: int, run: seq<Sample>, n: nat)
    requires n < |run| && Trustworthy(ticks, run)
    ensures Output(ticks, true, run, n) == run[n].input.value - run[0].input.value >= 0
  {
    if n == 0 {
      RunFacts(ticks, true, run, 0);
    } else {
      TrustedSourceIsKept(ticks, run, n - 1);
      RunFacts(ticks, true, run, n - 1);
      AfterStep(ticks, true, run, n);
      hide After, NextState, Plausible;
      TrustedStep(After(ticks, true, run[..n]), run[n], run[0].input.value);
    }
  }

  /** A plausible delta that lands inside the band is taken over unchanged. */
  lemma TrustedStep(st: State, s: Sample, origin: int)
    requires st.initialized && st.repair && st.ticks >= 1 && s.input.Some? && st.lastInput.Some?
    requires Plausible(st.ticks, ArrivalDelta(st, s), s.input.value - st.lastInput.value)
    requires st.lastOutput == st.lastInput.value - origin >= 0
    requires Elapsed(st, s) - 2 * st.ticks <= s.input.value - origin <= Elapsed(st, s) + 2 * st.ticks
    ensures NextState(st, s).lastOutput == s.input.value - origin >= 0
  {
    assert s.input.value - st.lastInput.value >= 1;
    assert Wanted(st, s) == s.input.value - st.lastInput.value;
    hide Plausible, Wanted;
  }

  /** Without repair, a strictly increasing source is only rebased. */
  lemma {:induction false} UnrepairedSourceIsKept(ticks: int, run: seq<Sample>, n: nat)
    requires n < |run| && forall k :: 0 <= k < |run| ==> run[k].input.Some?
    requires forall k :: 0 <= k < |run| - 1 ==> run[k].input.value < run[k + 1].input.value
    ensures Output(ticks, false, run, n) == run[n].input.value - run[0].input.value
    ensures After(ticks, false, run[..n + 1]).firstInput == run[0].input
  {
    AfterStep(ticks, false, run, n);
    if n > 0 {
      UnrepairedSourceIsKept(ticks, run, n - 1);
      RunFacts(ticks, false, run, n - 1);
      assert run[n - 1].input.value < run[n - 1 + 1].input.value;
    } else {
      assert run[..0] == [];
    }
  }

  // ---- The exact outputs ----

  /** Ticks between the arrivals of a packet and its predecessor, at least one. */
  function Apart(run: seq<Sample>, n: nat): int
    requires 0 < n < |run|
  {
    Max(run[n].arrival - run[n - 1].arrival, 1)
  }

  /**
   Both packets carry timestamps, and these are apart by at least a tick and at most two seconds or
   four times what the arrivals are, and not less than a quarter of it if that is ten milliseconds or more.
   */
  predicate Believed(ticks: int, run: seq<Sample>, n: nat)
    requires 0 < n < |run|
  {
    run[n].input.Some? && run[n - 1].input.Some? &&
    var t, a, d := Max(ticks, 1), Apart(run, n), run[n].input.value - run[n - 1].input.value;
    d >= 1 && (d <= 2 * t || d <= 4 * a) && (a >= t / 100 && a >= 1 ==> d >= a / 4)
  }

  lemma {:induction false} NeverNegative(ticks: int, repair: bool, run: seq<Sample>, n: nat)
    requires n < |run|
    ensures Output(ticks, repair, run, n) >= 0
  {
    RunFacts(ticks, repair, run, 0);
    if n > 0 {
      StrictlyIncreasing(ticks, repair, run, 0, n);
    }
  }

  /**
   The repair. An output advances by the source's own delta where that is believed and by the arrival
   delta where it is not, or as far as the band around arrival and strict growth allow.
   */
  lemma RepairsExactly(ticks: int, run: seq<Sample>, n: nat)
    requires 0 < n < |run|
    ensures var o, o' := Output(ticks, true, run, n - 1), Output(ticks, true, run, n);
            var e, t := ElapsedAt(run, n), Max(ticks, 1);
            var wanted := o + if Believed(ticks, run, n) then run[n].input.value - run[n - 1].input.value
                              else Apart(run, n);
            if wanted < e - 2 * t then o' == Max(o + 1, e - 2 * t)
            else if wanted > e + 2 * t then o' == Max(o + 1, e + 2 * t)
            else o' == wanted
  {
    RunFacts(ticks, true, run, n - 1);
    AfterStep(ticks, true, run, n);
    NeverNegative(ticks, true, run, n - 1);
    hide After;
    var st := After(ticks, true, run[..n]);
    WantedIs(ticks, run, n, st);
    ClampIs(st, run[n]);
    hide Wanted, NextState, Believed;
  }

  lemma WantedIs(ticks: int, run: seq<Sample>, n: nat, st: State)
    requires 0 < n < |run| && st.ticks == Max(ticks, 1)
    requires st.lastArrival == run[n - 1].arrival && st.lastInput == run[n - 1].input
    ensures Wanted(st, run[n]) == if Believed(ticks, run, n) then run[n].input.value - run[n - 1].input.value
                                  else Apart(run, n)
    ensures Wanted(st, run[n]) >= 1
  {
  }

  lemma ClampIs(st: State, s: Sample)
    requires st.initialized && st.repair && st.lastOutput >= 0 && st.ticks >= 1 && Wanted(st, s) >= 1
    ensures var o, o', e, t := st.lastOutput, NextState(st, s).lastOutput, Elapsed(st, s), st.ticks;
            var wanted := o + Wanted(st, s);
            if wanted < e - 2 * t then o' == Max(o + 1, e - 2 * t)
            else if wanted > e + 2 * t then o' == Max(o + 1, e + 2 * t)
            else o' == wanted
  {
    hide Wanted;
  }

  /** Where the source is never believed and arrivals grow, packets are timed by their arrival alone. */
  lemma {:induction false} UnbelievedFollowsArrivals(ticks: int, run: seq<Sample>, n: nat)
    requires n < |run| && forall k :: 0 <= k < |run| - 1 ==> run[k].arrival < run[k + 1].arrival
    requires forall k :: 0 < k < |run| ==> !Believed(ticks, run, k)
    ensures Output(ticks, true, run, n) == run[n].arrival - run[0].arrival
  {
    ArrivalsGrow(run, n);
    if n == 0 {
      RunFacts(ticks, true, run, 0);
    } else {
      UnbelievedFollowsArrivals(ticks, run, n - 1);
      ArrivalsGrow(run, n - 1);
      assert run[n - 1].arrival < run[n - 1 + 1].arrival;
      RepairsExactly(ticks, run, n);
    }
    hide Output, Believed;
  }

  /** The first packet that carries a timestamp, or the length. */
  function FirstTimed(run: seq<Sample>): (f: nat)
    ensures f <= |run| && (forall i :: 0 <= i < f ==> run[i].input.None?) && (f < |run| ==> run[f].input.Some?)
  {
    if run == [] || run[0].input.Some? then 0 else 1 + FirstTimed(run[1..])
  }

  /** The timestamp of packet `k` counted from the first one there was. */
  function Rebased(run: seq<Sample>, k: nat): int
    requires k < |run| && run[k].input.Some?
  {
    run[k].input.value - run[FirstTimed(run)].input.value
  }

  lemma {:induction false} OriginIsFirstTimed(ticks: int, run: seq<Sample>, n: nat)
    requires n < |run|
    ensures After(ticks, false, run[..n + 1]).firstInput
            == if FirstTimed(run) <= n then run[FirstTimed(run)].input else None
  {
    AfterStep(ticks, false, run, n);
    if n > 0 {
      OriginIsFirstTimed(ticks, run, n - 1);
      RunFacts(ticks, false, run, n - 1);
    } else {
      assert run[..0] == [];
    }
  }

  lemma UnrepairedStep(ticks: int, run: seq<Sample>, n: nat)
    requires 0 < n < |run|
    ensures var o, o' := Output(ticks, false, run, n - 1), Output(ticks, false, run, n);
            o' == if run[n].input.Some? then Max(Rebased(run, n), o + 1) else o + 1
  {
    RunFacts(ticks, false, run, n - 1);
    AfterStep(ticks, false, run, n);
    OriginIsFirstTimed(ticks, run, n - 1);
    hide After;
    RebaseIs(After(ticks, false, run[..n]), run, n);
    hide NextState, Rebased;
  }

  lemma RebaseIs(st: State, run: seq<Sample>, n: nat)
    requires 0 < n < |run| && st.initialized && !st.repair
    requires st.firstInput == if FirstTimed(run) <= n - 1 then run[FirstTimed(run)].input else None
    ensures var o, o' := st.lastOutput, NextState(st, run[n]).lastOutput;
            o' == if run[n].input.Some? then Max(Rebased(run, n), o + 1) else o + 1
  {
    var f := FirstTimed(run);
    hide FirstTimed;
    assert run[n].input.Some? ==> f <= n;
  }

  /**
   Without repair an output is the least that stays strictly above its predecessors: the largest,
   over the timed packets up to it, of their rebased timestamp plus the packets since, or its index.
   */
  lemma {:induction false} RebasesExactly(ticks: int, run: seq<Sample>, n: nat)
    requires n < |run|
    ensures var o := Output(ticks, false, run, n);
            && o >= n
            && (forall k :: 0 < k <= n && run[k].input.Some? ==> o >= Rebased(run, k) + (n - k))
            && (o == n || exists k :: 0 < k <= n && run[k].input.Some? && o == Rebased(run, k) + (n - k))
  {
    if n == 0 {
      RunFacts(ticks, false, run, 0);
    } else {
      RebasesExactly(ticks, run, n - 1);
      UnrepairedStep(ticks, run, n);
      hide Output, Rebased;
      var o := Output(ticks, false, run, n - 1);
      if o != n - 1 {
        var k :| 0 < k <= n - 1 && run[k].input.Some? && o == Rebased(run, k) + (n - 1 - k);
        assert o + 1 == Rebased(run, k) + (n - k);
      }
    }
  }

  // ---- The class ----

  class Normalizer {
    var ticksPerSecond: int
    var firstInput: Option<int>
    var lastInput: Option<int>
    var firstArrival: int
    var lastArrival: int
    var lastOutput: int
    var repairFromArrival: bool
    var initialized: bool

    ghost function View(): State
      reads this
    {
      State(ticksPerSecond, repairFromArrival, initialized, firstInput, lastInput,
            firstArrival, lastArrival, lastOutput)
    }

    constructor (ticks: int, repair: bool)
      ensures View() == Reset(ticks, repair) && ticksPerSecond >= 1
    {
      ticksPerSecond := Max(ticks, 1);
      firstInput, lastInput := None, None;
      firstArrival, lastArrival, lastOutput := 0, 0, 0;
      repairFromArrival := repair;
      initialized := false;
    }

    method Restart(ticks: int, repair: bool)
      modifies this
      ensures View() == Reset(ticks, repair) && ticksPerSecond >= 1
    {
      ticksPerSecond := Max(ticks, 1);
      firstInput, lastInput := None, None;
      firstArrival, lastArrival, lastOutput := 0, 0, 0;
      repairFromArrival := repair;
      initialized := false;
    }

    method Normalize(input: Option<int>, arrival: int) returns (output: int)
      requires ticksPerSecond >= 1
      modifies this
      ensures View() == NextState(old(View()), Sample(input, arrival))
      ensures output == lastOutput && ticksPerSecond == old(ticksPerSecond)
    {
      hide NextState;
      if !initialized {
        output := Begin(input, arrival);
      } else if !repairFromArrival {
        output := Rebase(input, arrival);
      } else {
        output := Repair(input, arrival);
      }
    }

    method Begin(input: Option<int>, arrival: int) returns (output: int)
      requires !initialized
      modifies this
      ensures View() == NextState(old(View()), Sample(input, arrival)) && output == lastOutput
      ensures ticksPerSecond == old(ticksPerSecond)
    {
      firstInput, lastInput := input, input;
      firstArrival, lastArrival := arrival, arrival;
      lastOutput := 0;
      initialized := true;
      return 0;
    }

    method Rebase(input: Option<int>, arrival: int) returns (output: int)
      requires initialized && !repairFromArrival
      modifies this
      ensures View() == NextState(old(View()), Sample(input, arrival)) && output == lastOutput
      ensures ticksPerSecond == old(ticksPerSecond)
    {
      output := lastOutput + 1;
      if input.Some? {
        if firstInput.None? {
          firstInput := input;
        }
        output := Max(input.value - firstInput.value, output);
      }
      lastInput, lastArrival, lastOutput := input, arrival, output;
    }

    method ChooseDelta(input: Option<int>, arrival: int) returns (outputDelta: int)
      requires ticksPerSecond >= 1
      ensures outputDelta == Wanted(View(), Sample(input, arrival))
    {
      var arrivalDelta := Max(arrival - lastArrival, 1);
      outputDelta := arrivalDelta;
      if input.Some? && lastInput.Some? {
        var inputDelta := input.value - lastInput.value;
        var minimumPlausible := if arrivalDelta >= Max(ticksPerSecond / 100, 1) then Max(arrivalDelta / 4, 1) else 1;
        var maximumPlausible := Max(ticksPerSecond * 2, arrivalDelta * 4);
        if inputDelta >= minimumPlausible && inputDelta <= maximumPlausible {
          outputDelta := inputDelta;
        }
      }
    }

    method Repair(input: Option<int>, arrival: int) returns (output: int)
      requires initialized && repairFromArrival && ticksPerSecond >= 1
      modifies this
      ensures View() == NextState(old(View()), Sample(input, arrival)) && output == lastOutput
      ensures ticksPerSecond == old(ticksPerSecond)
    {
      var outputDelta := ChooseDelta(input, arrival);
      hide Wanted;
      var arrivalElapsed := Max(arrival - firstArrival, 0);
      var skewAllowance := ticksPerSecond * 2;
      var skewed := if arrivalElapsed > skewAllowance then arrivalElapsed - skewAllowance else 0;
      var lowerBound := Max(lastOutput + 1, skewed);
      var upperBound := Max(lowerBound, arrivalElapsed + skewAllowance);
      outputDelta := Clamp(lastOutput + outputDelta, lowerBound, upperBound) - lastOutput;
      lastInput, lastArrival := input, arrival;
      lastOutput := lastOutput + outputDelta;
      return lastOutput;
    }
  }
}
