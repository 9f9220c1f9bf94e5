/** Under the hard limit: which frame stops an event whose last ONVIF state has run out, and which does not. */
module HardLimit {
  import opened MotionGlue
  import T = StateTracker
  import E = EventMachine
  import S = StaleEvents

  // ---- What holds between frames ----

  /** The loop has seen no more timeouts than there were, and a trigger lasts for one analysed frame. */
  predicate Counted(w: World) {
    w.seenTimeouts <= w.timeouts &&
    match w.loop
    case Idle => w.triggerFrames == 0
    case Swept(_) => w.triggerFrames == 0
    case Loaded(_, edge, _) => w.triggerFrames == if edge then 1 else 0
    case Judged(_, edge, _, _) => w.triggerFrames == if edge then 1 else 0
  }

  lemma StepCounts(c: Config, w: World, step: Step)
    requires Counted(w) && Enabled(w, step)
    ensures Counted(Next(c, w, step))
  {
    hide Analysed, T.Expire, T.Update, T.Active, T.Accepts;
  }

  lemma {:induction false} RunCounts(c: Config, start: int, steps: seq<Step>)
    requires Possible(c, start, steps)
    ensures Counted(Execute(c, start, steps))
  {
    if steps != [] {
      RunCounts(c, start, steps[..|steps| - 1]);
      hide Counted, Next, Enabled;
      StepCounts(c, Execute(c, start, steps[..|steps| - 1]), steps[|steps| - 1]);
    }
  }

  // ---- Runs and their prefixes ----

  lemma {:induction false} PrefixIsPossible(c: Config, start: int, s: seq<Step>, t: seq<Step>)
    requires Possible(c, start, s + t)
    ensures Possible(c, start, s)
  {
    if t == [] {
      assert s + t == s;
    } else {
      assert (s + t)[..|s + t| - 1] == s + t[..|t| - 1];
      PrefixIsPossible(c, start, s, t[..|t| - 1]);
    }
  }

  lemma LastStep(c: Config, start: int, s: seq<Step>, step: Step)
    requires Possible(c, start, s + [step])
    ensures Possible(c, start, s) && Enabled(Execute(c, start, s), step)
    ensures Execute(c, start, s + [step]) == Next(c, Execute(c, start, s), step)
  {
    hide Enabled, Next;
    assert (s + [step])[..|s|] == s;
  }

  /** After its first `n` steps the run asserts nothing more: whatever `true` it still brings is refused. */
  predicate NothingAsserted(c: Config, start: int, steps: seq<Step>, n: nat)
    requires Possible(c, start, steps)
  {
    |steps| <= n ||
    (NothingAsserted(c, start, steps[..|steps| - 1], n)
     && !Asserts(c, Execute(c, start, steps[..|steps| - 1]), steps[|steps| - 1]))
  }

  lemma LastAssertsNothing(c: Config, start: int, s: seq<Step>, step: Step, n: nat)
    requires Possible(c, start, s + [step]) && NothingAsserted(c, start, s + [step], n) && n <= |s|
    ensures Possible(c, start, s) && NothingAsserted(c, start, s, n) && !Asserts(c, Execute(c, start, s), step)
  {
    hide Asserts, Enabled, Execute;
    LastStep(c, start, s, step);
    assert (s + [step])[..|s|] == s;
  }

  lemma {:induction false} PrefixAssertsNothing(c: Config, start: int, s: seq<Step>, t: seq<Step>, n: nat)
    requires Possible(c, start, s + t) && NothingAsserted(c, start, s + t, n) && n <= |s|
    ensures Possible(c, start, s) && NothingAsserted(c, start, s, n)
    decreases |t|
  {
    hide Possible, NothingAsserted;
    if t == [] {
      assert s + t == s;
    } else {
      assert s + t == s + t[..|t| - 1] + [t[|t| - 1]];
      LastAssertsNothing(c, start, s + t[..|t| - 1], t[|t| - 1], n);
      PrefixAssertsNothing(c, start, s, t[..|t| - 1], n);
    }
  }

  // ---- Between an expiry pass and the next analysed frame ----

  /** Any step but those of an analysed frame: packets may be skipped and the source lost meanwhile. */
  predicate Between(step: Step) {
    !step.LoadGenerations? && !step.LoadFlag? && !step.Analyse?
  }

  predicate AllBetween(steps: seq<Step>) {
    forall i :: 0 <= i < |steps| ==> Between(steps[i])
  }

  /**
   From an expiry pass at `x`, whatever packet it is run for, to the judging of the next analysed
   frame at `u`. Before its counters are loaded any number of packets may be skipped, each after an
   expiry pass of its own.
   */
  function ToNextFrame(x: int, u: int, a: seq<Step>, b: seq<Step>, d: seq<Step>): seq<Step> {
    [Sweep(x)] + a + [LoadGenerations] + b + [LoadFlag] + d + [Analyse(false, u)]
  }

  /**
   What the loop has seen stays, and so does the event unless the source was lost; the timeouts only
   grow; a loaded frame and its event stay as they are.
   */
  predicate Kept(w: World, w': World, lost: bool) {
    && w'.seenTriggers == w.seenTriggers && w'.seenTimeouts == w.seenTimeouts
    && w'.triggerFrames == w.triggerFrames && w.timeouts <= w'.timeouts
    && (if lost then !w'.machine.active && w'.machine.number == w.machine.number else w'.machine == w.machine)
    && (w.loop.Loaded? || w.loop.Judged? ==> w'.loop == w.loop && !lost)
  }

  lemma BetweenKeeps(c: Config, w: World, step: Step)
    requires Between(step) && Enabled(w, step)
    ensures Kept(w, Next(c, w, step), step.SourceLost?)
  {
    hide T.Expire, T.Update, T.Active, T.Accepts;
  }

  lemma {:induction false} AllBetweenKeep(c: Config, start: int, s: seq<Step>, t: seq<Step>)
    requires Possible(c, start, s + t) && Possible(c, start, s) && AllBetween(t)
    ensures Kept(Execute(c, start, s), Execute(c, start, s + t), SourceLost in t)
    decreases |t|
  {
    if t == [] {
      assert s + t == s;
    } else {
      hide Possible, Execute, Next, Enabled, Between;
      var n := |t| - 1;
      assert t == t[..n] + [t[n]] && s + t == s + t[..n] + [t[n]];
      LastStep(c, start, s + t[..n], t[n]);
      AllBetweenKeep(c, start, s, t[..n]);
      BetweenKeeps(c, Execute(c, start, s + t[..n]), t[n]);
    }
  }

  lemma PassTimesOut(c: Config, w: World, x: int)
    requires c.ttl == 0 && Counted(w) && Enabled(w, Sweep(x))
    requires T.Active(w.tracker) && !T.Active(T.Expire(w.tracker, x, c.timeout))
    ensures var w' := Next(c, w, Sweep(x));
            && w'.timeouts > w'.seenTimeouts && w'.triggerFrames == 0
            && w'.seenTriggers == w.seenTriggers && w'.machine == w.machine
  {
    hide T.Expire, T.Active;
  }

  lemma LoadsTimeout(c: Config, w: World)
    requires Enabled(w, LoadGenerations) && w.timeouts > w.seenTimeouts && w.triggerFrames == 0
    ensures var w', edge := Next(c, w, LoadGenerations), w.triggers != w.seenTriggers;
            && w'.loop == Loaded(w.loop.at, edge, true) && w'.triggerFrames == (if edge then 1 else 0)
            && w'.seenTriggers == w.triggers && w'.machine == w.machine
  {
  }

  lemma LoadsFlag(c: Config, w: World, at: int, edge: bool)
    requires w.loop == Loaded(at, edge, true) && w.triggerFrames == if edge then 1 else 0
    ensures var w' := Next(c, w, LoadFlag);
            && w'.loop == Judged(at, edge, true, w.flag || edge)
            && w'.seenTriggers == w.seenTriggers && w'.machine == w.machine
  {
  }

  /** The event machine after a frame that has seen a timeout, and no motion in the picture. */
  function AfterTimeout(c: Config, m: E.Machine, edge: bool, triggered: bool, u: int): E.Machine {
    if m.active && !triggered then E.Stop(m).0
    else E.Update(c.settings, m, c.events && triggered, u, c.events && edge).0
  }

  lemma AnalysisIs(c: Config, w: World, at: int, edge: bool, triggered: bool, u: int)
    requires w.loop == Judged(at, edge, true, triggered) && Enabled(w, Analyse(false, u))
    ensures var w' := Next(c, w, Analyse(false, u));
            && w'.machine == AfterTimeout(c, w.machine, edge, triggered, u)
            && w'.loop.Idle? && w'.seenTriggers == w.seenTriggers
  {
    hide E.Update, E.Stop;
  }

  /** Whatever happens meanwhile, the frame goes by the triggers when it loads them and the flag when it loads that. */
  lemma TimeoutReachesFrame(c: Config, start: int, before: seq<Step>, x: int, u: int,
                            a: seq<Step>, b: seq<Step>, d: seq<Step>)
    requires c.ttl == 0 && AllBetween(a) && AllBetween(b) && AllBetween(d)
    requires Possible(c, start, before) && Possible(c, start, before + ToNextFrame(x, u, a, b, d))
    requires var t := Execute(c, start, before).tracker; T.Active(t) && !T.Active(T.Expire(t, x, c.timeout))
    ensures var first := before + [Sweep(x)] + a; var second := first + [LoadGenerations] + b;
            && Possible(c, start, first) && Possible(c, start, second)
            && var w, w' := Execute(c, start, before), Execute(c, start, before + ToNextFrame(x, u, a, b, d));
               var edge := Execute(c, start, first).triggers != w.seenTriggers;
               var m := Execute(c, start, first).machine;
               && w'.machine == AfterTimeout(c, m, edge, Execute(c, start, second).flag || edge, u)
               && m.number == w.machine.number && (if SourceLost in a then !m.active else m == w.machine)
               && w'.loop.Idle? && w'.seenTriggers == Execute(c, start, first).triggers
  {
    hide Possible, Execute, Next, Enabled, T.Active, T.Expire, AllBetween, AfterTimeout;
    var s1 := before + [Sweep(x)];
    var s2 := s1 + a;
    var s3 := s2 + [LoadGenerations];
    var s4 := s3 + b;
    var s5 := s4 + [LoadFlag];
    var s6 := s5 + d;
    assert before + ToNextFrame(x, u, a, b, d) == s6 + [Analyse(false, u)];
    LastStep(c, start, s6, Analyse(false, u));
    PrefixIsPossible(c, start, s5, d);
    LastStep(c, start, s4, LoadFlag);
    PrefixIsPossible(c, start, s3, b);
    LastStep(c, start, s2, LoadGenerations);
    PrefixIsPossible(c, start, s1, a);
    LastStep(c, start, before, Sweep(x));
    RunCounts(c, start, before);
    var w2, w4 := Execute(c, start, s2), Execute(c, start, s4);
    PassTimesOut(c, Execute(c, start, before), x);
    AllBetweenKeep(c, start, s1, a);
    LoadsTimeout(c, w2);
    AllBetweenKeep(c, start, s3, b);
    var at, edge := w4.loop.at, w2.triggers != w2.seenTriggers;
    LoadsFlag(c, w4, at, edge);
    AllBetweenKeep(c, start, s5, d);
    AnalysisIs(c, Execute(c, start, s6), at, edge, w4.flag || edge, u);
  }

  // ---- While nothing is asserted the tracker stays empty ----

  /** The tracker has run empty and nothing is about to be raised. */
  predicate Empty(w: World) {
    !T.Active(w.tracker) && !w.flag && (w.lock.Changed? ==> !w.lock.raise)
  }

  lemma EmptyStep(c: Config, w: World, step: Step)
    requires c.ttl == 0 && Empty(w) && Enabled(w, step) && !Asserts(c, w, step)
    ensures Empty(Next(c, w, step)) && Next(c, w, step).triggers == w.triggers
  {
    hide Analysed;
  }

  lemma {:induction false} EmptyStays(c: Config, start: int, s: seq<Step>, t: seq<Step>, n: nat)
    requires c.ttl == 0 && Possible(c, start, s + t) && n <= |s| && NothingAsserted(c, start, s + t, n)
    requires Possible(c, start, s) && Empty(Execute(c, start, s))
    ensures var w' := Execute(c, start, s + t); Empty(w') && w'.triggers == Execute(c, start, s).triggers
    decreases |t|
  {
    if t == [] {
      assert s + t == s;
    } else {
      hide Possible, Execute, Next, Enabled, Asserts, NothingAsserted, Empty;
      var k := |t| - 1;
      assert s + t == s + t[..k] + [t[k]];
      LastStep(c, start, s + t[..k], t[k]);
      LastAssertsNothing(c, start, s + t[..k], t[k], n);
      EmptyStays(c, start, s, t[..k], n);
      EmptyStep(c, Execute(c, start, s + t[..k]), t[k]);
    }
  }

  lemma PassEmpties(c: Config, w: World, x: int)
    requires Enabled(w, Sweep(x)) && !T.Active(T.Expire(w.tracker, x, Lifetime(c)))
    ensures Empty(Next(c, w, Sweep(x))) && Next(c, w, Sweep(x)).triggers == w.triggers
  {
    hide T.Expire, T.Active;
  }

  /** Then the frame loads the triggers there were before the pass and reads a cleared flag; the tracker stays empty. */
  lemma NothingReachesFrame(c: Config, start: int, before: seq<Step>, x: int, u: int,
                            a: seq<Step>, b: seq<Step>, d: seq<Step>)
    requires c.ttl == 0 && Possible(c, start, before) && Possible(c, start, before + ToNextFrame(x, u, a, b, d))
    requires NothingAsserted(c, start, before + ToNextFrame(x, u, a, b, d), |before|)
    requires !T.Active(T.Expire(Execute(c, start, before).tracker, x, c.timeout))
    ensures var first := before + [Sweep(x)] + a; var second := first + [LoadGenerations] + b;
            && Possible(c, start, first) && Possible(c, start, second)
            && var w, w' := Execute(c, start, before), Execute(c, start, before + ToNextFrame(x, u, a, b, d));
               && Execute(c, start, first).triggers == w.triggers && !Execute(c, start, second).flag
               && Empty(w') && w'.triggers == w.triggers
  {
    hide Possible, Execute, Next, Enabled, T.Active, T.Expire, NothingAsserted;
    var s1 := before + [Sweep(x)];
    var rest := [LoadFlag] + d + [Analyse(false, u)];
    var all := before + ToNextFrame(x, u, a, b, d);
    var between := a + [LoadGenerations] + b;
    assert all == s1 + (between + rest) == s1 + between + rest;
    assert s1 + between == s1 + a + ([LoadGenerations] + b) == s1 + a + [LoadGenerations] + b;
    PrefixAssertsNothing(c, start, s1 + between, rest, |before|);
    PrefixAssertsNothing(c, start, s1 + a, [LoadGenerations] + b, |before|);
    PrefixIsPossible(c, start, s1, a);
    LastStep(c, start, before, Sweep(x));
    PassEmpties(c, Execute(c, start, before), x);
    EmptyStays(c, start, s1, a, |before|);
    EmptyStays(c, start, s1, between, |before|);
    EmptyStays(c, start, s1, between + rest, |before|);
    hide Empty;
    assert Empty(Execute(c, start, s1 + between));
    EmptyFlag(Execute(c, start, s1 + between));
  }

  lemma EmptyFlag(w: World)
    requires Empty(w)
    ensures !w.flag
  {
  }

  lemma StoppedUnlessTriggered(c: Config, m: E.Machine, edge: bool, u: int)
    requires E.ValidSettings(c.settings)
    ensures var m' := AfterTimeout(c, m, edge, edge, u);
            && (c.events ==> (m'.active <==> edge && !E.ReachedMaximum(c.settings, m, u)))
            && (!edge ==> !m'.active && m'.number == m.number)
  {
  }

  lemma IdleHasNoMaximum(c: Config, m: E.Machine, u: int)
    ensures !m.active ==> !E.ReachedMaximum(c.settings, m, u)
  {
  }

  // ---- Main results ----

  /**
   Under the hard limit take any expiry pass that empties the tracker, for an analysed frame or a
   skipped packet, and the next analysed frame, with everything that can happen in between except
   that a `true` is accepted: further packets may be skipped, the source lost, suppressed keys
   repeated. No event is active after that frame unless a trigger was still waiting before the pass:
   then, if ONVIF events are on, one is active unless it has reached the maximum duration, which a
   lost source forgets.
   */
  lemma HardLimitStopsExactly(c: Config, start: int, before: seq<Step>, x: int, u: int,
                              a: seq<Step>, b: seq<Step>, d: seq<Step>)
    requires c.ttl == 0 && E.ValidSettings(c.settings) && AllBetween(a) && AllBetween(b) && AllBetween(d)
    requires Possible(c, start, before) && Possible(c, start, before + ToNextFrame(x, u, a, b, d))
    requires NothingAsserted(c, start, before + ToNextFrame(x, u, a, b, d), |before|)
    requires var t := Execute(c, start, before).tracker; T.Active(t) && !T.Active(T.Expire(t, x, c.timeout))
    ensures var w, w' := Execute(c, start, before), Execute(c, start, before + ToNextFrame(x, u, a, b, d));
            && (c.events ==>
                  (w'.machine.active <==>
                     && w.triggers != w.seenTriggers
                     && (SourceLost in a || !E.ReachedMaximum(c.settings, w.machine, u))))
            && (w.triggers == w.seenTriggers ==> !w'.machine.active && w'.machine.number == w.machine.number)
  {
    hide Possible, Execute, Next, Enabled, T.Active, T.Expire, AllBetween, NothingAsserted, AfterTimeout, Empty;
    TimeoutReachesFrame(c, start, before, x, u, a, b, d);
    NothingReachesFrame(c, start, before, x, u, a, b, d);
    var w := Execute(c, start, before);
    var m := Execute(c, start, before + [Sweep(x)] + a).machine;
    StoppedUnlessTriggered(c, m, w.triggers != w.seenTriggers, u);
    IdleHasNoMaximum(c, m, u);
    hide E.ReachedMaximum;
  }

  /**
   With anything at all in between, accepted notifications included: the event that was active when
   the tracker ran empty survives the next analysed frame exactly when that frame finds a trigger it
   has not seen, or the flag set again, and the event has not reached its maximum duration.
   */
  lemma SurvivesExactly(c: Config, start: int, before: seq<Step>, x: int, u: int,
                        a: seq<Step>, b: seq<Step>, d: seq<Step>)
    requires c.ttl == 0 && c.events && E.ValidSettings(c.settings) && AllBetween(a) && AllBetween(b) && AllBetween(d)
    requires Possible(c, start, before) && Possible(c, start, before + ToNextFrame(x, u, a, b, d))
    requires var w := Execute(c, start, before);
             T.Active(w.tracker) && !T.Active(T.Expire(w.tracker, x, c.timeout)) && w.machine.active
    requires SourceLost !in a
    ensures var first := before + [Sweep(x)] + a; var second := first + [LoadGenerations] + b;
            && Possible(c, start, first) && Possible(c, start, second)
            && var w, w' := Execute(c, start, before), Execute(c, start, before + ToNextFrame(x, u, a, b, d));
               w'.machine.active <==>
                 && (Execute(c, start, first).triggers != w.seenTriggers || Execute(c, start, second).flag)
                 && !E.ReachedMaximum(c.settings, w.machine, u)
  {
    hide Possible, Execute, Next, Enabled, T.Active, T.Expire, AllBetween, AfterTimeout;
    TimeoutReachesFrame(c, start, before, x, u, a, b, d);
    var w := Execute(c, start, before);
    var first := before + [Sweep(x)] + a;
    var edge := Execute(c, start, first).triggers != w.seenTriggers;
    ActiveAfterTimeout(c, w.machine, edge, Execute(c, start, first + [LoadGenerations] + b).flag || edge, u);
    hide E.ReachedMaximum;
  }

  lemma ActiveAfterTimeout(c: Config, m: E.Machine, edge: bool, triggered: bool, u: int)
    requires E.ValidSettings(c.settings) && c.events && m.active && (edge ==> triggered)
    ensures AfterTimeout(c, m, edge, triggered, u).active <==> triggered && !E.ReachedMaximum(c.settings, m, u)
  {
  }

  /** Between the threads nothing is on its way to an event, and there is none; `number` events have been started. */
  predicate Rested(w: World, number: nat) {
    && Empty(w) && w.triggers == w.seenTriggers && w.triggerFrames == 0
    && !w.machine.active && w.machine.number == number
    && match w.loop
       case Loaded(_, edge, _) => !edge
       case Judged(_, edge, _, triggered) => !edge && !triggered
       case _ => true
  }

  lemma RestedStep(c: Config, w: World, step: Step, number: nat)
    requires c.ttl == 0 && Rested(w, number) && Enabled(w, step) && !Asserts(c, w, step)
    requires step.Analyse? ==> !step.local
    ensures Rested(Next(c, w, step), number)
  {
    EmptyStep(c, w, step);
    hide Empty, T.Expire, T.Update, T.Active;
  }

  lemma {:induction false} RestedStays(c: Config, start: int, s: seq<Step>, t: seq<Step>, n: nat, number: nat)
    requires c.ttl == 0 && Possible(c, start, s + t) && n <= |s| && NothingAsserted(c, start, s + t, n)
    requires forall i :: 0 <= i < |t| && t[i].Analyse? ==> !t[i].local
    requires Possible(c, start, s) && Rested(Execute(c, start, s), number)
    ensures Rested(Execute(c, start, s + t), number)
    decreases |t|
  {
    if t == [] {
      assert s + t == s;
    } else {
      hide Possible, Execute, Next, Enabled, Asserts, NothingAsserted, Rested;
      var k := |t| - 1;
      assert s + t == s + t[..k] + [t[k]];
      LastStep(c, start, s + t[..k], t[k]);
      LastAssertsNothing(c, start, s + t[..k], t[k], n);
      RestedStays(c, start, s, t[..k], n, number);
      RestedStep(c, Execute(c, start, s + t[..k]), t[k], number);
    }
  }

  /**
   Once stopped it stays stopped: with no trigger waiting before the pass, no event is active after
   that frame or after any continuation, and none has been started, for as long as every further
   `true` is refused and no frame sees motion in the picture.
   */
  lemma HardLimitStopsForGood(c: Config, start: int, before: seq<Step>, x: int, u: int,
                              a: seq<Step>, b: seq<Step>, d: seq<Step>, more: seq<Step>)
    requires c.ttl == 0 && E.ValidSettings(c.settings) && AllBetween(a) && AllBetween(b) && AllBetween(d)
    requires var all := before + ToNextFrame(x, u, a, b, d) + more;
             Possible(c, start, all) && NothingAsserted(c, start, all, |before|)
    requires forall i :: 0 <= i < |more| && more[i].Analyse? ==> !more[i].local
    requires Possible(c, start, before)
    requires var w := Execute(c, start, before);
             && T.Active(w.tracker) && !T.Active(T.Expire(w.tracker, x, c.timeout))
             && w.triggers == w.seenTriggers
    ensures var w, w' := Execute(c, start, before),
                         Execute(c, start, before + ToNextFrame(x, u, a, b, d) + more);
            !w'.machine.active && w'.machine.number == w.machine.number
  {
    hide Possible, Execute, Next, Enabled, T.Active, T.Expire, AllBetween, NothingAsserted, AfterTimeout;
    hide Empty, Counted;
    var frame := before + ToNextFrame(x, u, a, b, d);
    PrefixAssertsNothing(c, start, frame, more, |before|);
    HardLimitStopsExactly(c, start, before, x, u, a, b, d);
    TimeoutReachesFrame(c, start, before, x, u, a, b, d);
    NothingReachesFrame(c, start, before, x, u, a, b, d);
    RunCounts(c, start, frame);
    IdleCounts(Execute(c, start, frame));
    var number := Execute(c, start, before).machine.number;
    RestedStays(c, start, frame, more, |before|, number);
  }

  lemma IdleCounts(w: World)
    requires Counted(w) && w.loop.Idle?
    ensures w.triggerFrames == 0
  {
  }

  // ---- A repeated `true` can carry the event past the limit ----

  function TrueWorld(c: Config, w: World, now: int): World
    requires w.lock.Free? && w.clock <= now
  {
    DoPublish(DoRaise(DoNotify(c, w, S.KEY, true, true, now)))
  }

  lemma ExtendTrue(c: Config, start: int, s: seq<Step>, now: int)
    requires Possible(c, start, s)
    requires Execute(c, start, s).lock.Free? && Execute(c, start, s).clock <= now
    ensures Possible(c, start, s + S.TrueSteps(now))
    ensures Execute(c, start, s + S.TrueSteps(now)) == TrueWorld(c, Execute(c, start, s), now)
  {
    hide Possible, Execute, S.PromptRun, T.Update, T.Accepts, T.Active;
    S.Extend(c, start, 0, s, Notify(S.KEY, true, true, now));
    var s1 := s + [Notify(S.KEY, true, true, now)];
    S.Extend(c, start, 0, s1, Raise);
    S.Extend(c, start, 0, s1 + [Raise], Publish);
    assert s1 + [Raise] + [Publish] == s + S.TrueSteps(now);
  }

  /** One state asserted at time zero whose trigger has been published, with the event it started or none yet. */
  function Asserted(triggers: nat, seen: nat, m: E.Machine, now: int, frameAt: int): World {
    World(T.Tracker(map[S.KEY := T.State(0, false)], {}), Free, true, triggers, 0, Idle, seen, 0, 0, m,
          now, frameAt, frameAt)
  }

  function Started(c: Config): E.Machine {
    E.Update(c.settings, E.INITIAL, true, 0, true).0
  }

  lemma FirstTrue(c: Config)
    requires c.ttl == 0
    ensures TrueWorld(c, Init(0), 0) == Asserted(1, 0, E.INITIAL, 0, 0)
  {
    assert S.KEY in map[S.KEY := T.State(0, false)];
  }

  lemma FirstFrame(c: Config)
    requires c.ttl == 0 && c.timeout > 0 && c.events
    ensures S.FrameWorld(c, Asserted(1, 0, E.INITIAL, 0, 0), 0, 0) == Asserted(1, 1, Started(c), 0, 0)
  {
    var t := Asserted(1, 0, E.INITIAL, 0, 0).tracker;
    assert S.KEY in t.asserted;
    assert T.Expire(t, 0, c.timeout) == t;
    hide E.Update;
  }

  lemma RepeatedTrue(c: Config, m: E.Machine, now: int)
    requires c.ttl == 0 && now >= 0
    ensures TrueWorld(c, Asserted(1, 1, m, 0, 0), now) == Asserted(2, 1, m, now, 0)
  {
    assert S.KEY in map[S.KEY := T.State(0, false)];
  }

  lemma LastFrame(c: Config, m: E.Machine, now: int)
    requires c.ttl == 0 && c.timeout > 0 && c.events && E.ValidSettings(c.settings)
    requires m == Started(c) && (c.settings.maxEventDuration > 0 ==> c.timeout < c.settings.maxEventDuration)
    ensures var w := Asserted(2, 1, m, now, 0); var w' := S.FrameWorld(c, w, c.timeout, c.timeout);
            T.Active(w.tracker) && !T.Active(T.Expire(w.tracker, c.timeout, c.timeout)) && w'.machine.active
  {
    var w := Asserted(2, 1, m, now, 0);
    assert S.KEY in w.tracker.asserted;
    assert !T.Active(T.Expire(w.tracker, c.timeout, c.timeout));
  }

  /**
   So a repeated `true` does not extend the lifetime of its state, but it can extend the event: here
   the only state is asserted at zero and repeated one tick before its limit, and the frame that
   expires it leaves the event active.
   */
  lemma RepeatOutlivesLimit(c: Config) returns (before: seq<Step>)
    requires c.ttl == 0 && c.timeout > 0 && c.events && E.ValidSettings(c.settings)
    requires c.settings.maxEventDuration > 0 ==> c.timeout < c.settings.maxEventDuration
    ensures before == S.TrueSteps(0) + S.FrameSteps(0, 0) + S.TrueSteps(c.timeout - 1)
    ensures Possible(c, 0, before) && Possible(c, 0, before + S.FrameSteps(c.timeout, c.timeout))
    ensures var t := Execute(c, 0, before).tracker;
            T.Active(t) && !T.Active(T.Expire(t, c.timeout, c.timeout))
    ensures Execute(c, 0, before + S.FrameSteps(c.timeout, c.timeout)).machine.active
  {
    var none: seq<Step> := [];
    assert Possible(c, 0, none) && Execute(c, 0, none) == Init(0);
    hide Possible, Execute, S.FrameWorld, TrueWorld, S.PromptRun, T.Active, T.Expire, Started;
    ExtendTrue(c, 0, none, 0);
    assert none + S.TrueSteps(0) == S.TrueSteps(0);
    FirstTrue(c);
    S.ExtendFrame(c, 0, 0, S.TrueSteps(0), 0, 0);
    FirstFrame(c);
    ExtendTrue(c, 0, S.TrueSteps(0) + S.FrameSteps(0, 0), c.timeout - 1);
    RepeatedTrue(c, Started(c), c.timeout - 1);
    before := S.TrueSteps(0) + S.FrameSteps(0, 0) + S.TrueSteps(c.timeout - 1);
    S.ExtendFrame(c, 0, 0, before, c.timeout, c.timeout);
    LastFrame(c, Started(c), c.timeout - 1);
  }
}
