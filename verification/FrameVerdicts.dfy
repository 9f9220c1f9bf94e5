/** What an analysed frame does to the event, for every way the two threads can interleave around it. */
module FrameVerdicts {
  import opened MotionGlue
  import T = StateTracker
  import E = EventMachine
  import H = EventHistory
  import L = HardLimit

  // ---- The event machine of a run sees a history of frames ----

  /** What a step gives the event machine, from what the frame loop had loaded. */
  function InputOf(c: Config, w: World, step: Step): seq<H.Input>
    requires Enabled(w, step)
  {
    match step
    case Analyse(local, now) =>
      if w.machine.active && w.loop.timedOut && !w.loop.triggered && !local then [H.Shutdown]
      else [H.Frame(local || (w.loop.triggered && c.events), now, w.loop.edge && c.events)]
    case SourceLost => if w.machine.active then [H.Shutdown] else []
    case _ => []
  }

  function Inputs(c: Config, start: int, steps: seq<Step>): seq<H.Input>
    requires Possible(c, start, steps)
  {
    if steps == [] then []
    else
      var n := |steps| - 1;
      Inputs(c, start, steps[..n]) + InputOf(c, Execute(c, start, steps[..n]), steps[n])
  }

  lemma HistoryStep(c: Config, w: World, step: Step, inputs: seq<H.Input>)
    requires Enabled(w, step) && w.machine == H.Final(c.settings, inputs)
    ensures Next(c, w, step).machine == H.Final(c.settings, inputs + InputOf(c, w, step))
  {
    hide E.Update, T.Expire, T.Update, T.Accepts, T.Active;
    var more := InputOf(c, w, step);
    if more == [] {
      assert inputs + more == inputs;
    } else {
      var all := inputs + more;
      assert all[..|all| - 1] == inputs && all[|all| - 1] == more[0];
    }
  }

  /** So every result about histories holds of the events of a worker. */
  lemma {:induction false} MachineIsHistory(c: Config, start: int, steps: seq<Step>)
    requires Possible(c, start, steps)
    ensures Execute(c, start, steps).machine == H.Final(c.settings, Inputs(c, start, steps))
  {
    if steps != [] {
      var n := |steps| - 1;
      MachineIsHistory(c, start, steps[..n]);
      hide Next, Enabled, InputOf, H.Final;
      HistoryStep(c, Execute(c, start, steps[..n]), steps[n], Inputs(c, start, steps[..n]));
    }
  }

  // ---- What a frame goes by ----

  /** An analysed frame from the loading of its counters to its judging, with anything in between. */
  function FrameFrom(local: bool, u: int, b: seq<Step>, d: seq<Step>): seq<Step> {
    [LoadGenerations] + b + [LoadFlag] + d + [Analyse(local, u)]
  }

  lemma LoadsCounters(c: Config, w: World)
    requires Enabled(w, LoadGenerations) && w.triggerFrames == 0
    ensures var w', edge := Next(c, w, LoadGenerations), w.triggers != w.seenTriggers;
            && w'.loop == Loaded(w.loop.at, edge, w.timeouts != w.seenTimeouts) && w'.machine == w.machine
            && w'.triggerFrames == (if edge then 1 else 0)
  {
  }

  lemma LoadsFlag(c: Config, w: World, at: int, edge: bool, timedOut: bool)
    requires w.loop == Loaded(at, edge, timedOut) && w.triggerFrames == if edge then 1 else 0
    ensures var w' := Next(c, w, LoadFlag);
            w'.loop == Judged(at, edge, timedOut, w.flag || edge) && w'.machine == w.machine
  {
  }

  lemma SweptCounts(w: World)
    requires L.Counted(w) && w.loop.Swept?
    ensures w.triggerFrames == 0
  {
  }

  /**
   A frame goes by the triggers and timeouts not yet seen when it loads the counters, by the flag when
   it loads that, and by the event as it was: nothing that happens in between matters.
   */
  lemma FrameGoesBy(c: Config, start: int, s: seq<Step>, local: bool, u: int, b: seq<Step>, d: seq<Step>)
    requires L.AllBetween(b) && L.AllBetween(d)
    requires Possible(c, start, s) && Possible(c, start, s + FrameFrom(local, u, b, d))
    ensures var flagged := s + [LoadGenerations] + b; var judged := flagged + [LoadFlag] + d;
            && Possible(c, start, flagged) && Possible(c, start, judged)
            && Enabled(Execute(c, start, s), LoadGenerations)
            && Enabled(Execute(c, start, judged), Analyse(local, u))
            && Execute(c, start, s + FrameFrom(local, u, b, d))
               == Next(c, Execute(c, start, judged), Analyse(local, u))
            && var w, w' := Execute(c, start, s), Execute(c, start, judged);
               var edge := w.triggers != w.seenTriggers;
               && w'.machine == w.machine
               && w'.loop == Judged(w.loop.at, edge, w.timeouts != w.seenTimeouts,
                                    edge || Execute(c, start, flagged).flag)
  {
    hide Possible, Execute, Next, Enabled, L.AllBetween;
    var s1 := s + [LoadGenerations];
    var s2 := s1 + b;
    var s3 := s2 + [LoadFlag];
    var s4 := s3 + d;
    assert s + FrameFrom(local, u, b, d) == s4 + [Analyse(local, u)];
    L.LastStep(c, start, s4, Analyse(local, u));
    L.PrefixIsPossible(c, start, s3, d);
    L.LastStep(c, start, s2, LoadFlag);
    L.PrefixIsPossible(c, start, s1, b);
    L.LastStep(c, start, s, LoadGenerations);
    L.RunCounts(c, start, s);
    var w, w2 := Execute(c, start, s), Execute(c, start, s2);
    LoadsWhenSwept(w);
    SweptCounts(w);
    LoadsCounters(c, w);
    L.AllBetweenKeep(c, start, s1, b);
    LoadsFlag(c, w2, w.loop.at, w.triggers != w.seenTriggers, w.timeouts != w.seenTimeouts);
    L.AllBetweenKeep(c, start, s3, d);
  }

  lemma LoadsWhenSwept(w: World)
    requires Enabled(w, LoadGenerations)
    ensures w.loop.Swept?
  {
  }

  // ---- Main results ----

  /**
   In every run and for every interleaving, an analysed frame starts an event exactly when none is
   active, it has motion, and it closes the required streak of frames with motion or carries a new
   trigger with ONVIF events on.
   */
  lemma FrameStartsExactly(c: Config, start: int, s: seq<Step>, local: bool, u: int, b: seq<Step>, d: seq<Step>)
    requires L.AllBetween(b) && L.AllBetween(d) && E.ValidSettings(c.settings)
    requires Possible(c, start, s) && Possible(c, start, s + FrameFrom(local, u, b, d))
    ensures Possible(c, start, s + [LoadGenerations] + b)
    ensures var w, w' := Execute(c, start, s), Execute(c, start, s + FrameFrom(local, u, b, d));
            var edge, flag := w.triggers != w.seenTriggers, Execute(c, start, s + [LoadGenerations] + b).flag;
            var streak := H.Streak(c.settings, Inputs(c, start, s));
            && (w'.machine.number == w.machine.number || w'.machine.number == w.machine.number + 1)
            && (w'.machine.number > w.machine.number <==>
                && !w.machine.active && (local || (c.events && (edge || flag)))
                && ((c.events && edge) || streak + 1 >= c.settings.minimumMotionFrames))
            && (w'.machine.number > w.machine.number ==>
                  w'.machine.active && w'.machine.startedAt == w'.machine.lastMotion == E.At(u))
  {
    FrameGoesBy(c, start, s, local, u, b, d);
    MachineIsHistory(c, start, s);
    H.RunAccounts(c.settings, Inputs(c, start, s));
    var judged := Execute(c, start, s + [LoadGenerations] + b + [LoadFlag] + d);
    hide Possible, Execute, Inputs, H.Final, L.AllBetween;
    IdleStreak(c, Inputs(c, start, s), judged.machine);
    StartsWhen(c, judged, local, u, H.Streak(c.settings, Inputs(c, start, s)));
    hide Next, H.Streak;
  }

  lemma IdleStreak(c: Config, inputs: seq<H.Input>, m: E.Machine)
    requires H.Accounts(c.settings, inputs, m)
    ensures !m.active ==> m.consecutive == H.Streak(c.settings, inputs)
  {
  }

  lemma StartsWhen(c: Config, w: World, local: bool, u: int, streak: nat)
    requires E.ValidSettings(c.settings) && Enabled(w, Analyse(local, u)) && (w.loop.edge ==> w.loop.triggered)
    requires !w.machine.active ==> w.machine.consecutive == streak
    ensures var m, m' := w.machine, Next(c, w, Analyse(local, u)).machine;
            && (m'.number == m.number || m'.number == m.number + 1)
            && (m'.number > m.number <==>
                && !m.active && (local || (c.events && w.loop.triggered))
                && ((c.events && w.loop.edge) || streak + 1 >= c.settings.minimumMotionFrames))
            && (m'.number > m.number ==> m'.active && m'.startedAt == m'.lastMotion == E.At(u))
  {
  }

  /**
   An active event ends at an analysed frame exactly when it has reached its maximum duration, or the
   frame has no motion and either lies the gap behind the latest motion or has seen a timeout with
   nothing asserted.
   */
  lemma FrameEndsExactly(c: Config, start: int, s: seq<Step>, local: bool, u: int, b: seq<Step>, d: seq<Step>)
    requires L.AllBetween(b) && L.AllBetween(d) && E.ValidSettings(c.settings)
    requires Possible(c, start, s) && Possible(c, start, s + FrameFrom(local, u, b, d))
    requires Execute(c, start, s).machine.active
    ensures Possible(c, start, s + [LoadGenerations] + b)
    ensures var w, w' := Execute(c, start, s), Execute(c, start, s + FrameFrom(local, u, b, d));
            var m, m' := w.machine, w'.machine;
            var edge, flag := w.triggers != w.seenTriggers, Execute(c, start, s + [LoadGenerations] + b).flag;
            var motion := local || (c.events && (edge || flag));
            && m.startedAt.At? && m.lastMotion.At?
            && (!m'.active <==>
                || (c.settings.maxEventDuration > 0 && u - m.startedAt.time >= c.settings.maxEventDuration)
                || (!motion && u - m.lastMotion.time >= c.settings.eventGap)
                || (w.timeouts != w.seenTimeouts && !local && !edge && !flag))
            && (m'.active ==> m'.startedAt == m.startedAt && m'.lastMotion == if motion then E.At(u) else m.lastMotion)
  {
    FrameGoesBy(c, start, s, local, u, b, d);
    MachineIsHistory(c, start, s);
    H.RunAccounts(c.settings, Inputs(c, start, s));
    var judged := Execute(c, start, s + [LoadGenerations] + b + [LoadFlag] + d);
    hide Possible, Execute, Inputs, H.Final, L.AllBetween;
    ActiveTimes(c, Inputs(c, start, s), judged.machine);
    EndsWhen(c, judged, local, u);
    hide Next;
  }

  lemma ActiveTimes(c: Config, inputs: seq<H.Input>, m: E.Machine)
    requires H.Accounts(c.settings, inputs, m)
    ensures m.active ==> m.startedAt.At? && m.lastMotion.At?
  {
  }

  lemma EndsWhen(c: Config, w: World, local: bool, u: int)
    requires E.ValidSettings(c.settings) && Enabled(w, Analyse(local, u))
    requires w.machine.active && w.machine.startedAt.At? && w.machine.lastMotion.At?
    ensures var m, m' := w.machine, Next(c, w, Analyse(local, u)).machine;
            var motion := local || (c.events && w.loop.triggered);
            && (!m'.active <==>
                || (c.settings.maxEventDuration > 0 && u - m.startedAt.time >= c.settings.maxEventDuration)
                || (!motion && u - m.lastMotion.time >= c.settings.eventGap)
                || (w.loop.timedOut && !local && !w.loop.triggered))
            && (m'.active ==> m'.startedAt == m.startedAt && m'.lastMotion == if motion then E.At(u) else m.lastMotion)
  {
  }

  /** Motion in the picture carries an event on, whatever has timed out, up to its maximum duration. */
  lemma LocalMotionHolds(c: Config, start: int, s: seq<Step>, u: int, b: seq<Step>, d: seq<Step>)
    requires L.AllBetween(b) && L.AllBetween(d) && E.ValidSettings(c.settings)
    requires Possible(c, start, s) && Possible(c, start, s + FrameFrom(true, u, b, d))
    requires Execute(c, start, s).machine.active
    ensures var m, m' := Execute(c, start, s).machine, Execute(c, start, s + FrameFrom(true, u, b, d)).machine;
            && m.startedAt.At?
            && (m'.active <==> !(c.settings.maxEventDuration > 0
                                 && u - m.startedAt.time >= c.settings.maxEventDuration))
            && (m'.active ==> m'.lastMotion == E.At(u) && m'.startedAt == m.startedAt)
  {
    hide Possible, Execute, L.AllBetween;
    FrameEndsExactly(c, start, s, true, u, b, d);
  }

  // ---- No accepted `true` is lost ----

  /** A trigger is about to be raised, or raised and not yet seen. */
  predicate Underway(w: World, raised: bool) {
    w.seenTriggers <= w.triggers && (w.triggers > w.seenTriggers || (!raised && w.lock == Changed(true)))
  }

  lemma UnderwayStep(c: Config, w: World, step: Step, raised: bool)
    requires Underway(w, raised) && L.Between(step) && Enabled(w, step)
    ensures Underway(Next(c, w, step), raised || step.Raise?)
  {
    hide T.Expire, T.Update, T.Active, T.Accepts;
  }

  lemma {:induction false} UnderwayStays(c: Config, start: int, s: seq<Step>, t: seq<Step>)
    requires Possible(c, start, s + t) && Possible(c, start, s) && L.AllBetween(t)
    requires Underway(Execute(c, start, s), false)
    ensures Underway(Execute(c, start, s + t), Raise in t)
    decreases |t|
  {
    if t == [] {
      assert s + t == s;
    } else {
      hide Possible, Execute, Next, Enabled, L.Between, Underway;
      var k := |t| - 1;
      assert t == t[..k] + [t[k]] && s + t == s + t[..k] + [t[k]];
      L.LastStep(c, start, s + t[..k], t[k]);
      UnderwayStays(c, start, s, t[..k]);
      UnderwayStep(c, Execute(c, start, s + t[..k]), t[k], Raise in t[..k]);
    }
  }

  lemma {:induction false} SeenAreRaised(c: Config, start: int, steps: seq<Step>)
    requires Possible(c, start, steps)
    ensures Execute(c, start, steps).seenTriggers <= Execute(c, start, steps).triggers
  {
    if steps != [] {
      SeenAreRaised(c, start, steps[..|steps| - 1]);
      hide T.Expire, T.Update, T.Active, T.Accepts, Analysed, Possible;
    }
  }

  lemma AssertionIsUnderway(c: Config, w: World, step: Step)
    requires Enabled(w, step) && Asserts(c, w, step) && w.seenTriggers <= w.triggers
    ensures Underway(Next(c, w, step), false)
  {
    hide T.Update;
  }

  /**
   Once a `true` that the tracker accepts, or need not hold, has been raised, the next frame to load
   its counters has an event, a new one or the one there was, unless that one reaches its maximum
   duration: the trigger is neither lost nor counted twice, whatever happens before and meanwhile.
   */
  lemma AssertionReachesFrame(c: Config, start: int, before: seq<Step>, notify: Step, a: seq<Step>,
                              local: bool, u: int, b: seq<Step>, d: seq<Step>)
    requires c.events && E.ValidSettings(c.settings) && L.AllBetween(a) && L.AllBetween(b) && L.AllBetween(d)
    requires Possible(c, start, before) && Asserts(c, Execute(c, start, before), notify) && Raise in a
    requires Possible(c, start, before + [notify] + a)
    requires Possible(c, start, before + [notify] + a + FrameFrom(local, u, b, d))
    ensures var w := Execute(c, start, before + [notify] + a);
            var w' := Execute(c, start, before + [notify] + a + FrameFrom(local, u, b, d));
            && w'.seenTriggers == w.triggers > w.seenTriggers
            && (w'.machine.active <==> !E.ReachedMaximum(c.settings, w.machine, u))
            && (w'.machine.active ==> w'.machine.lastMotion == E.At(u))
  {
    hide Possible, Execute, Next, Enabled, Asserts, L.AllBetween, Underway;
    var s := before + [notify] + a;
    L.PrefixIsPossible(c, start, before + [notify], a);
    L.LastStep(c, start, before, notify);
    SeenAreRaised(c, start, before);
    AssertionIsUnderway(c, Execute(c, start, before), notify);
    UnderwayStays(c, start, before + [notify], a);
    UnderwayIsEdge(Execute(c, start, s));
    FrameGoesBy(c, start, s, local, u, b, d);
    SeenAfterFrame(c, start, s, local, u, b, d);
    var judged := Execute(c, start, s + [LoadGenerations] + b + [LoadFlag] + d);
    EdgeDecides(c, judged, local, u);
    hide E.ReachedMaximum;
  }

  lemma UnderwayIsEdge(w: World)
    requires Underway(w, true)
    ensures w.triggers > w.seenTriggers
  {
  }

  lemma EdgeDecides(c: Config, w: World, local: bool, u: int)
    requires E.ValidSettings(c.settings) && c.events && Enabled(w, Analyse(local, u))
    requires w.loop.edge && w.loop.triggered
    ensures var m' := Next(c, w, Analyse(local, u)).machine;
            && (m'.active <==> !E.ReachedMaximum(c.settings, w.machine, u))
            && (m'.active ==> m'.lastMotion == E.At(u))
  {
  }

  lemma SeenAfterFrame(c: Config, start: int, s: seq<Step>, local: bool, u: int, b: seq<Step>, d: seq<Step>)
    requires L.AllBetween(b) && L.AllBetween(d)
    requires Possible(c, start, s) && Possible(c, start, s + FrameFrom(local, u, b, d))
    ensures Execute(c, start, s + FrameFrom(local, u, b, d)).seenTriggers == Execute(c, start, s).triggers
  {
    hide Possible, Execute, Next, Enabled, L.AllBetween;
    var s1 := s + [LoadGenerations];
    var s2 := s1 + b;
    var s3 := s2 + [LoadFlag];
    var s4 := s3 + d;
    assert s + FrameFrom(local, u, b, d) == s4 + [Analyse(local, u)];
    L.LastStep(c, start, s4, Analyse(local, u));
    L.PrefixIsPossible(c, start, s3, d);
    L.LastStep(c, start, s2, LoadFlag);
    L.PrefixIsPossible(c, start, s1, b);
    L.LastStep(c, start, s, LoadGenerations);
    L.AllBetweenKeep(c, start, s1, b);
    L.AllBetweenKeep(c, start, s3, d);
    SeenBySteps(c, Execute(c, start, s), Execute(c, start, s2), Execute(c, start, s4), local, u);
  }

  lemma SeenBySteps(c: Config, w: World, w2: World, w4: World, local: bool, u: int)
    ensures Enabled(w, LoadGenerations) ==> Next(c, w, LoadGenerations).seenTriggers == w.triggers
    ensures Enabled(w2, LoadFlag) ==> Next(c, w2, LoadFlag).seenTriggers == w2.seenTriggers
    ensures Enabled(w4, Analyse(local, u)) ==> Next(c, w4, Analyse(local, u)).seenTriggers == w4.seenTriggers
  {
    hide Analysed;
  }

  // ---- The tracker of a run replays its notifications ----

  /** What a step tells the tracker: smart topics are not held under the hard limit. */
  function MessageOf(c: Config, step: Step): seq<T.Message> {
    match step
    case Notify(key, active, holdsState, now) =>
      if holdsState || c.ttl > 0 then [T.Notified(key, active, now, c.ttl > 0)] else []
    case Disconnect => [T.Cleared]
    case Sweep(now) => [T.Expired(now, if c.ttl > 0 then c.ttl else c.timeout)]
    case _ => []
  }

  function Messages(c: Config, steps: seq<Step>): seq<T.Message> {
    if steps == [] then [] else Messages(c, steps[..|steps| - 1]) + MessageOf(c, steps[|steps| - 1])
  }

  lemma ReplayStep(c: Config, w: World, step: Step, h: seq<T.Message>)
    requires Enabled(w, step) && w.tracker == T.Replay(h)
    ensures Next(c, w, step).tracker == T.Replay(h + MessageOf(c, step))
  {
    hide T.Update, T.Expire, T.Active, T.Accepts, Analysed;
    var more := MessageOf(c, step);
    if more == [] {
      assert h + more == h;
    } else {
      var all := h + more;
      assert all[..|all| - 1] == h && all[|all| - 1] == more[0];
    }
  }

  /** So the results about replays hold of the states a worker has at any time. */
  lemma {:induction false} TrackerReplays(c: Config, start: int, steps: seq<Step>)
    requires Possible(c, start, steps)
    ensures Execute(c, start, steps).tracker == T.Replay(Messages(c, steps))
  {
    if steps != [] {
      var n := |steps| - 1;
      TrackerReplays(c, start, steps[..n]);
      hide Next, Enabled, MessageOf, T.Replay;
      ReplayStep(c, Execute(c, start, steps[..n]), steps[n], Messages(c, steps[..n]));
    }
  }

  // ---- Timeouts ----

  /** How many expiry passes under the hard limit have found the last state run out. */
  function Emptyings(c: Config, start: int, steps: seq<Step>): nat
    requires Possible(c, start, steps)
  {
    if steps == [] then 0
    else
      var n := |steps| - 1;
      var before, after := Execute(c, start, steps[..n]).tracker, Execute(c, start, steps).tracker;
      Emptyings(c, start, steps[..n])
      + if steps[n].Sweep? && c.ttl == 0 && before.asserted != map[] && after.asserted == map[] then 1 else 0
  }

  /** The timeout counter counts exactly those: it never moves under leases, whose expiry keeps the gap tail. */
  lemma {:induction false} TimeoutsCountEmptyings(c: Config, start: int, steps: seq<Step>)
    requires Possible(c, start, steps)
    ensures Execute(c, start, steps).timeouts == Emptyings(c, start, steps)
    ensures c.ttl > 0 ==> Execute(c, start, steps).timeouts == 0
  {
    if steps != [] {
      TimeoutsCountEmptyings(c, start, steps[..|steps| - 1]);
      hide T.Expire, T.Update, T.Accepts, Analysed;
    }
  }

  // ---- What a frame has left to see ----

  /** How many steps came before the latest frame loaded its counters; none has if it is zero. */
  function LastLoad(steps: seq<Step>): (n: nat)
    ensures n <= |steps|
  {
    if steps == [] then 0
    else if steps[|steps| - 1].LoadGenerations? then |steps| - 1
    else LastLoad(steps[..|steps| - 1])
  }

  lemma SeenStep(c: Config, w: World, step: Step)
    requires Enabled(w, step)
    ensures var w' := Next(c, w, step);
            if step.LoadGenerations? then w'.seenTriggers == w.triggers && w'.seenTimeouts == w.timeouts
            else w'.seenTriggers == w.seenTriggers && w'.seenTimeouts == w.seenTimeouts
  {
    hide T.Expire, T.Update, T.Active, T.Accepts, Analysed;
  }

  /** Each trigger and each timeout is new to one frame only: the first that loads its counters after it. */
  lemma {:induction false} SeenAtLastLoad(c: Config, start: int, steps: seq<Step>)
    requires Possible(c, start, steps)
    ensures var before := steps[..LastLoad(steps)];
            && Possible(c, start, before)
            && Execute(c, start, steps).seenTriggers == Execute(c, start, before).triggers
            && Execute(c, start, steps).seenTimeouts == Emptyings(c, start, before)
  {
    if steps != [] {
      var n := |steps| - 1;
      var before := steps[..n];
      assert steps == before + [steps[n]];
      L.LastStep(c, start, before, steps[n]);
      TimeoutsCountEmptyings(c, start, before);
      SeenAtLastLoad(c, start, before);
      SeenStep(c, Execute(c, start, before), steps[n]);
      hide Emptyings, Possible, Execute, Next, Enabled;
      assert before[..LastLoad(before)] == steps[..LastLoad(before)];
    }
  }
}
