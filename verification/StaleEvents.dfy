/** When an ONVIF event whose camera has fallen silent is closed, for every interleaving of the two threads. */
module StaleEvents {
  import opened MotionGlue
  import T = StateTracker
  import E = EventMachine

  // ---- Closing stale events ----

  /** The step asserts nothing after `last`, and no frame sees motion in the picture. */
  predicate SilentAfter(c: Config, last: int, w: World, step: Step) {
    && (Asserts(c, w, step) ==> step.now <= last)
    && (step.Analyse? ==> !step.local)
  }

  /** No `true` after `last` is accepted in the run; refused repeats may go on for ever. */
  predicate SilentRun(c: Config, start: int, last: int, steps: seq<Step>)
    requires Possible(c, start, steps)
  {
    steps == [] ||
    (SilentRun(c, start, last, steps[..|steps| - 1])
     && SilentAfter(c, last, Execute(c, start, steps[..|steps| - 1]), steps[|steps| - 1]))
  }

  /** Frames are analysed less than the lifetime of a state apart, within `delay` of their expiry pass. */
  predicate Prompt(c: Config, delay: int, w: World, step: Step) {
    step.Analyse? && w.loop.Judged? ==> step.now - w.frameAt < Lifetime(c) && step.now - w.loop.at <= delay
  }

  predicate PromptRun(c: Config, start: int, delay: int, steps: seq<Step>)
    requires Possible(c, start, steps)
  {
    steps == [] ||
    (PromptRun(c, start, delay, steps[..|steps| - 1])
     && Prompt(c, delay, Execute(c, start, steps[..|steps| - 1]), steps[|steps| - 1]))
  }

  function Bound(c: Config, last: int, delay: int): int {
    last + Lifetime(c) + c.settings.eventGap + delay
  }

  predicate Leases(last: int, w: World) {
    forall k :: k in w.tracker.asserted ==>
      w.tracker.asserted[k].assertedAt <= last && w.tracker.asserted[k].assertedAt <= w.clock
  }

  predicate Fresh(c: Config, t: T.Tracker, at: int) {
    forall k :: k in t.asserted ==> at - t.asserted[k].assertedAt < Lifetime(c)
  }

  predicate Clocks(w: World) {
    w.loadedAt <= w.clock && w.frameAt <= w.clock && (!w.loop.Idle? ==> w.loop.at <= w.clock)
  }

  /** A trigger that is still to be consumed was raised after the last expiry pass of an analysed frame. */
  predicate Triggers(last: int, w: World) {
    && (w.triggers != w.seenTriggers ==> w.loadedAt <= last)
    && (w.lock.Changed? && w.lock.raise ==> w.loadedAt <= last && (w.loop.Swept? ==> w.loop.at <= last))
  }

  predicate LoopInv(c: Config, last: int, delay: int, w: World) {
    match w.loop
    case Idle => w.frameAt <= w.loadedAt + delay && w.triggerFrames == 0
    case Swept(at) =>
      && w.frameAt <= w.loadedAt + delay && w.triggerFrames == 0
      && Fresh(c, w.tracker, at) && (w.flag ==> at < last + Lifetime(c))
    case Loaded(at, edge, _) =>
      && Fresh(c, w.tracker, at) && (w.flag ==> at < last + Lifetime(c)) && w.loadedAt == at
      && (edge ==> w.frameAt <= last + delay) && w.triggerFrames == (if edge then 1 else 0)
    case Judged(at, edge, _, triggered) =>
      && (triggered ==> edge || at < last + Lifetime(c)) && w.loadedAt == at
      && (edge ==> w.frameAt <= last + delay) && w.triggerFrames == (if edge then 1 else 0)
  }

  predicate EventInv(c: Config, last: int, delay: int, w: World) {
    && TimesBelow(w.machine, last + Lifetime(c) + delay)
    && (Closed(c.settings, w.frameAt, last + Lifetime(c) + delay) ==> !w.machine.active)
  }

  /** An active event has begun and last seen motion before the limit. */
  predicate TimesBelow(m: E.Machine, limit: int) {
    && (m.active ==> m.lastMotion.At? && m.startedAt.At?)
    && (m.lastMotion.At? ==> m.lastMotion.time < limit)
    && (m.startedAt.At? ==> m.startedAt.time < limit)
  }

  /** No event whose motion all lies before `limit` is active after a frame judged at `now`. */
  predicate Closed(s: E.Settings, now: int, limit: int) {
    || now >= limit + s.eventGap
    || (s.eventGap > 0 && now >= limit + s.eventGap - 1)
    || (s.maxEventDuration > 0 && now >= limit + s.maxEventDuration - 1)
  }

  predicate StaleInv(c: Config, last: int, delay: int, w: World) {
    && FlagInv(w) && Leases(last, w) && Clocks(w) && Triggers(last, w)
    && LoopInv(c, last, delay, w) && EventInv(c, last, delay, w)
  }

  lemma NotifyKeeps(c: Config, last: int, delay: int, w: World, key: T.Key, active: bool, holdsState: bool, now: int)
    requires Lifetime(c) > 0 && StaleInv(c, last, delay, w) && w.lock.Free? && w.clock <= now
    requires Asserts(c, w, Notify(key, active, holdsState, now)) ==> now <= last
    ensures StaleInv(c, last, delay, DoNotify(c, w, key, active, holdsState, now))
  {
    hide T.Active, EventInv;
    SameEvents(c, last, delay, w, DoNotify(c, w, key, active, holdsState, now));
  }

  lemma SameEvents(c: Config, last: int, delay: int, w: World, w': World)
    requires EventInv(c, last, delay, w) && w'.machine == w.machine && w'.frameAt == w.frameAt
    ensures EventInv(c, last, delay, w')
  {
  }

  /** An active tracker has a lease, so the pass that left it fresh ran before the latest one ends. */
  lemma ActiveMeansRecent(c: Config, last: int, w: World, at: int)
    requires Leases(last, w) && Fresh(c, w.tracker, at) && T.Active(w.tracker)
    ensures at < last + Lifetime(c)
  {
    assert exists k :: k in w.tracker.asserted;
  }

  lemma PublishKeeps(c: Config, last: int, delay: int, w: World)
    requires StaleInv(c, last, delay, w) && w.lock.Raised?
    ensures StaleInv(c, last, delay, DoPublish(w))
  {
    if w.loop.Swept? || w.loop.Loaded? {
      if T.Active(w.tracker) {
        ActiveMeansRecent(c, last, w, w.loop.at);
      }
    }
    hide T.Active, Fresh;
  }

  lemma SweepKeeps(c: Config, last: int, delay: int, w: World, now: int)
    requires Lifetime(c) > 0 && StaleInv(c, last, delay, w) && w.lock.Free? && w.loop.Idle? && w.clock <= now
    ensures StaleInv(c, last, delay, DoSweep(c, w, now))
  {
    var w' := DoSweep(c, w, now);
    assert Leases(last, w') && Fresh(c, w'.tracker, now);
    if T.Active(w'.tracker) {
      ActiveMeansRecent(c, last, w', now);
    }
    hide T.Active, Fresh, Leases, T.Expire;
  }

  /** A frame that qualifies is analysed before the latest lease can have ended, up to the delay. */
  lemma QualifyingIsEarly(c: Config, last: int, delay: int, w: World, now: int)
    requires delay >= 0 && LoopInv(c, last, delay, w) && w.loop.Judged?
    requires now - w.frameAt < Lifetime(c) && now - w.loop.at <= delay
    ensures w.loop.triggered || w.loop.edge ==> now < last + Lifetime(c) + delay
  {
  }

  lemma MachineStep(c: Config, m: E.Machine, motion: bool, now: int, force: bool, limit: int)
    requires E.ValidSettings(c.settings) && TimesBelow(m, limit)
    requires motion || force ==> now < limit
    ensures var m' := E.Update(c.settings, m, motion, now, force).0;
            TimesBelow(m', limit) && (Closed(c.settings, now, limit) ==> !m'.active)
  {
  }

  lemma AnalyseKeeps(c: Config, last: int, delay: int, w: World, now: int)
    requires delay >= 0 && E.ValidSettings(c.settings) && StaleInv(c, last, delay, w)
    requires w.loop.Judged? && w.clock <= now
    requires Prompt(c, delay, w, Analyse(false, now))
    ensures StaleInv(c, last, delay, DoAnalyse(c, w, false, now))
  {
    QualifyingIsEarly(c, last, delay, w, now);
    MachineStep(c, w.machine, c.events && w.loop.triggered, now, c.events && w.loop.edge, last + Lifetime(c) + delay);
    hide E.Update, Fresh, T.Active;
  }

  lemma StaleStep(c: Config, last: int, delay: int, w: World, step: Step)
    requires Lifetime(c) > 0 && delay >= 0 && E.ValidSettings(c.settings)
    requires StaleInv(c, last, delay, w) && Enabled(w, step)
    requires SilentAfter(c, last, w, step) && Prompt(c, delay, w, step)
    ensures StaleInv(c, last, delay, Next(c, w, step))
  {
    match step
    case Notify(key, active, holdsState, now) => NotifyKeeps(c, last, delay, w, key, active, holdsState, now);
    case Publish => PublishKeeps(c, last, delay, w);
    case Sweep(now) => SweepKeeps(c, last, delay, w, now);
    case Analyse(_, now) => AnalyseKeeps(c, last, delay, w, now);
    case _ => OtherKeeps(c, last, delay, w, step);
  }

  lemma OtherKeeps(c: Config, last: int, delay: int, w: World, step: Step)
    requires StaleInv(c, last, delay, w) && Enabled(w, step)
    requires !step.Notify? && !step.Publish? && !step.Sweep? && !step.Analyse?
    ensures StaleInv(c, last, delay, Next(c, w, step))
  {
    hide E.Update, E.Motion, E.Quiet, Analysed;
  }

  /**
   The closing bound, under leases and under the hard limit. With ONVIF as the only trigger, frames
   analysed less than the lifetime of a state apart and no `true` accepted after `last`, no event is
   active once a frame has been analysed at or after last + lifetime + gap + delay, whatever the
   interleaving of the two threads and however often a suppressed key is repeated. A maximum duration
   shorter than the gap closes it that much earlier.
   */
  lemma {:induction false} StaleEventCloses(c: Config, start: int, last: int, delay: int, steps: seq<Step>)
    requires Lifetime(c) > 0 && delay >= 0 && E.ValidSettings(c.settings)
    requires Possible(c, start, steps) && PromptRun(c, start, delay, steps)
    requires SilentRun(c, start, last, steps)
    ensures var w := Execute(c, start, steps);
            && (w.frameAt >= Bound(c, last, delay) ==> !w.machine.active)
            && (c.settings.maxEventDuration > 0 ==>
                  (w.frameAt >= last + Lifetime(c) + c.settings.maxEventDuration + delay ==> !w.machine.active))
  {
    StaleRun(c, start, last, delay, steps);
  }

  lemma {:induction false} StaleRun(c: Config, start: int, last: int, delay: int, steps: seq<Step>)
    requires Lifetime(c) > 0 && delay >= 0 && E.ValidSettings(c.settings)
    requires Possible(c, start, steps) && PromptRun(c, start, delay, steps)
    requires SilentRun(c, start, last, steps)
    ensures StaleInv(c, last, delay, Execute(c, start, steps))
  {
    if steps != [] {
      var n := |steps| - 1;
      StaleRun(c, start, last, delay, steps[..n]);
      hide StaleInv, Next, Enabled, SilentAfter, Prompt;
      StaleStep(c, last, delay, Execute(c, start, steps[..n]), steps[n]);
    }
  }

  // ---- The bound without the delay ----

  /** The plain reading of the documentation for one run: the event is closed by last + lease + gap. */
  predicate ClosedByLeaseAndGap(c: Config, start: int, last: int, steps: seq<Step>)
    requires Possible(c, start, steps)
  {
    var w := Execute(c, start, steps);
    w.frameAt >= last + c.ttl + c.settings.eventGap ==> !w.machine.active
  }

  ghost predicate PlainBound(c: Config, delay: int) {
    forall start: int, last: int, steps: seq<Step> ::
      (Possible(c, start, steps) && PromptRun(c, start, delay, steps)
       && SilentRun(c, start, last, steps)) ==> ClosedByLeaseAndGap(c, start, last, steps)
  }

  /** The judging delay that frames less than a lease apart can really have. */
  function Slip(c: Config, delay: int): int {
    if delay < c.ttl then delay else c.ttl - 1
  }

  /** The clock resolution of one tick, or a maximum duration short enough to end even the latest event, hides it. */
  predicate SlipIsHidden(c: Config, delay: int) {
    || !c.events
    || Slip(c, delay) <= (if c.settings.eventGap > 0 then 1 else 0)
    || 0 < c.settings.maxEventDuration <= c.settings.eventGap + 1 - Slip(c, delay)
  }

  // ---- When the slip is hidden the bound holds ----

  predicate Ahead(w: World) {
    w.frameAt <= w.clock && (!w.loop.Idle? ==> w.frameAt <= w.loop.at <= w.clock)
  }

  lemma AheadStep(c: Config, w: World, step: Step)
    requires Ahead(w) && Enabled(w, step)
    ensures Ahead(Next(c, w, step))
  {
    hide T.Expire, T.Update, T.Accepts, T.Active, Analysed;
  }

  lemma PromptStep(c: Config, delay: int, w: World, step: Step)
    requires c.ttl > 0 && Ahead(w) && Enabled(w, step) && Prompt(c, delay, w, step)
    ensures Prompt(c, Slip(c, delay), w, step)
  {
  }

  /** A frame's expiry pass comes after the previous frame, so its delay is below the lease. */
  lemma {:induction false} PromptMeansSlip(c: Config, start: int, delay: int, steps: seq<Step>)
    requires c.ttl > 0 && Possible(c, start, steps) && PromptRun(c, start, delay, steps)
    ensures PromptRun(c, start, Slip(c, delay), steps) && Ahead(Execute(c, start, steps))
  {
    if steps != [] {
      var n := |steps| - 1;
      PromptMeansSlip(c, start, delay, steps[..n]);
      hide Ahead, Next, Enabled, Prompt, Slip;
      AheadStep(c, Execute(c, start, steps[..n]), steps[n]);
      PromptStep(c, delay, Execute(c, start, steps[..n]), steps[n]);
    }
  }

  /** With ONVIF events off only motion in the picture starts events, whatever is asserted. */
  lemma {:induction false} NoEventsNoEvent(c: Config, start: int, steps: seq<Step>)
    requires !c.events && Possible(c, start, steps)
    requires forall i :: 0 <= i < |steps| && steps[i].Analyse? ==> !steps[i].local
    ensures !Execute(c, start, steps).machine.active && Execute(c, start, steps).machine.number == 0
  {
    if steps != [] {
      NoEventsNoEvent(c, start, steps[..|steps| - 1]);
      hide T.Expire, T.Update;
    }
  }

  lemma {:induction false} SilentMeansNoMotion(c: Config, start: int, last: int, steps: seq<Step>)
    requires Possible(c, start, steps) && SilentRun(c, start, last, steps)
    ensures forall i :: 0 <= i < |steps| && steps[i].Analyse? ==> !steps[i].local
  {
    if steps != [] {
      var n := |steps| - 1;
      SilentMeansNoMotion(c, start, last, steps[..n]);
      hide Execute, Asserts;
      forall i | 0 <= i < |steps| && steps[i].Analyse? ensures !steps[i].local {
        assert i < n ==> steps[..n][i] == steps[i];
      }
    }
  }

  lemma HiddenSlipKeepsBound(c: Config, start: int, last: int, delay: int, steps: seq<Step>)
    requires c.ttl > 0 && delay >= 0 && E.ValidSettings(c.settings) && SlipIsHidden(c, delay)
    requires Possible(c, start, steps) && PromptRun(c, start, delay, steps)
    requires SilentRun(c, start, last, steps)
    ensures ClosedByLeaseAndGap(c, start, last, steps)
  {
    if !c.events {
      SilentMeansNoMotion(c, start, last, steps);
      NoEventsNoEvent(c, start, steps);
    } else {
      PromptMeansSlip(c, start, delay, steps);
      StaleRun(c, start, last, Slip(c, delay), steps);
    }
    hide Execute, Possible, PromptRun, SilentRun;
  }

  // ---- Otherwise some run misses it ----

  lemma Extend(c: Config, start: int, delay: int, steps: seq<Step>, step: Step)
    requires Possible(c, start, steps) && Enabled(Execute(c, start, steps), step)
    ensures Possible(c, start, steps + [step])
    ensures Execute(c, start, steps + [step]) == Next(c, Execute(c, start, steps), step)
    ensures PromptRun(c, start, delay, steps) && Prompt(c, delay, Execute(c, start, steps), step) ==>
              PromptRun(c, start, delay, steps + [step])
  {
    hide Next, Enabled, Prompt;
    var all := steps + [step];
    assert all[..|all| - 1] == steps;
  }

  /** Every `true`, accepted or not, is no later than `last`, and no frame sees motion in the picture. */
  predicate Early(last: int, step: Step) {
    && (step.Notify? && step.active ==> step.now <= last)
    && (step.Analyse? ==> !step.local)
  }

  lemma {:induction false} EarlyIsSilent(c: Config, start: int, last: int, steps: seq<Step>)
    requires Possible(c, start, steps) && forall i :: 0 <= i < |steps| ==> Early(last, steps[i])
    ensures SilentRun(c, start, last, steps)
  {
    if steps != [] {
      EarlyIsSilent(c, start, last, steps[..|steps| - 1]);
      hide Execute;
    }
  }

  function FrameSteps(at: int, now: int): seq<Step> {
    [Sweep(at), LoadGenerations, LoadFlag, Analyse(false, now)]
  }

  function FrameWorld(c: Config, w: World, at: int, now: int): World {
    DoAnalyse(c, DoLoadFlag(DoLoadGenerations(DoSweep(c, w, at))), false, now)
  }

  /** A frame that meets no notification while it is processed. */
  lemma ExtendFrame(c: Config, start: int, delay: int, steps: seq<Step>, at: int, now: int)
    requires Possible(c, start, steps)
    requires var w := Execute(c, start, steps); w.loop.Idle? && w.lock.Free? && w.clock <= at <= now
    ensures var all := steps + FrameSteps(at, now);
            Possible(c, start, all) && Execute(c, start, all) == FrameWorld(c, Execute(c, start, steps), at, now)
    ensures (PromptRun(c, start, delay, steps) && now - at <= delay
             && now - Execute(c, start, steps).frameAt < Lifetime(c)) ==>
              PromptRun(c, start, delay, steps + FrameSteps(at, now))
  {
    hide Analysed, T.Expire, Possible, Execute, PromptRun;
    var w0 := Execute(c, start, steps);
    var s1 := steps + [Sweep(at)];
    Extend(c, start, delay, steps, Sweep(at));
    var s2 := s1 + [LoadGenerations];
    Extend(c, start, delay, s1, LoadGenerations);
    var s3 := s2 + [LoadFlag];
    Extend(c, start, delay, s2, LoadFlag);
    Extend(c, start, delay, s3, Analyse(false, now));
    assert s3 + [Analyse(false, now)] == steps + FrameSteps(at, now);
  }

  const KEY: T.Key := "motion"

  function TrueSteps(now: int): seq<Step> {
    [Notify(KEY, true, true, now), Raise, Publish]
  }

  /** One `true` at time zero has been published and nothing has been analysed. */
  function Triggered(): World {
    World(T.Tracker(map[KEY := T.State(0, true)], {}), Free, true, 1, 0, Idle, 0, 0, 0, E.INITIAL, 0, 0, 0)
  }

  lemma ExtendTrue(c: Config, delay: int)
    requires c.ttl > 0
    ensures Possible(c, 0, TrueSteps(0)) && PromptRun(c, 0, delay, TrueSteps(0))
    ensures Execute(c, 0, TrueSteps(0)) == Triggered()
  {
    var s0: seq<Step> := [];
    assert Possible(c, 0, s0) && PromptRun(c, 0, delay, s0) && Execute(c, 0, s0) == Init(0);
    hide Execute, Possible, PromptRun, T.Update;
    Extend(c, 0, delay, s0, Notify(KEY, true, true, 0));
    var s1 := s0 + [Notify(KEY, true, true, 0)];
    Extend(c, 0, delay, s1, Raise);
    Extend(c, 0, delay, s1 + [Raise], Publish);
    assert s1 + [Raise] + [Publish] == TrueSteps(0);
    UpdateEmpty();
  }

  lemma UpdateEmpty()
    ensures T.Update(T.EMPTY, KEY, true, 0, true) == Triggered().tracker && T.Active(Triggered().tracker)
  {
    assert T.Update(T.EMPTY, KEY, true, 0, true) == Triggered().tracker by {
      assert {} - {KEY} == {};
    }
    assert KEY in Triggered().tracker.asserted;
  }

  /** A frame that loads the counter and the flag just before the `true` at time zero, and is judged late. */
  function MissingSteps(late: int): seq<Step> {
    [Sweep(0), LoadGenerations, LoadFlag, Notify(KEY, true, true, 0), Raise, Publish, Analyse(false, late)]
  }

  function Missed(late: int): World {
    Triggered().(clock := late, frameAt := late)
  }

  lemma MissingFrame(c: Config, delay: int, late: int)
    requires c.events && E.ValidSettings(c.settings) && 0 <= late <= delay && late < c.ttl
    ensures Possible(c, 0, MissingSteps(late)) && PromptRun(c, 0, delay, MissingSteps(late))
    ensures Execute(c, 0, MissingSteps(late)) == Missed(late)
  {
    var s0: seq<Step> := [];
    assert Possible(c, 0, s0) && PromptRun(c, 0, delay, s0) && Execute(c, 0, s0) == Init(0);
    hide Execute, Possible, PromptRun, T.Update, T.Expire, Analysed;
    NothingExpires(c);
    var s1 := s0 + [Sweep(0)];
    Extend(c, 0, delay, s0, Sweep(0));
    var s2 := s1 + [LoadGenerations];
    Extend(c, 0, delay, s1, LoadGenerations);
    var s3 := s2 + [LoadFlag];
    Extend(c, 0, delay, s2, LoadFlag);
    var s4 := s3 + [Notify(KEY, true, true, 0)];
    Extend(c, 0, delay, s3, Notify(KEY, true, true, 0));
    UpdateEmpty();
    var s5 := s4 + [Raise];
    Extend(c, 0, delay, s4, Raise);
    var s6 := s5 + [Publish];
    Extend(c, 0, delay, s5, Publish);
    Extend(c, 0, delay, s6, Analyse(false, late));
    assert s6 + [Analyse(false, late)] == MissingSteps(late);
    IdleStaysIdle(c, Execute(c, 0, s6), late);
  }

  lemma NothingExpires(c: Config)
    ensures T.Expire(T.EMPTY, 0, Lifetime(c)) == T.EMPTY && !T.Active(T.EMPTY)
  {
    assert T.Expire(T.EMPTY, 0, Lifetime(c)).suppressed == {};
  }

  lemma IdleStaysIdle(c: Config, w: World, now: int)
    requires w.loop.Judged? && !w.loop.triggered && !w.loop.timedOut && w.machine == E.INITIAL
    ensures Analysed(c, w, false, now) == E.INITIAL
  {
  }

  /** The state of the tracker, the counters and the event once the late frame has started it. */
  predicate Coasting(w: World, since: int) {
    && w.machine.active && w.machine.lastMotion == w.machine.startedAt == E.At(since)
    && w.loop.Idle? && w.lock.Free? && w.clock == w.frameAt
    && w.triggers == w.seenTriggers && w.timeouts == w.seenTimeouts && w.triggerFrames == 0
    && forall k :: k in w.tracker.asserted ==> w.tracker.asserted[k].assertedAt <= 0
  }

  /** The next frame sees the trigger while the lease still runs, and starts the event when it is judged. */
  lemma ForcedFrame(c: Config, late: int, now: int)
    requires c.events && E.ValidSettings(c.settings) && c.ttl > 0
    ensures var w := FrameWorld(c, Missed(late), c.ttl - 1, now); Coasting(w, now) && w.frameAt == now
  {
    var t := Triggered().tracker;
    assert KEY in t.asserted;
    assert T.Expire(t, c.ttl - 1, c.ttl) == t;
  }

  lemma CoastFrame(c: Config, w: World, since: int, now: int)
    requires c.events && E.ValidSettings(c.settings) && c.ttl > 0
    requires Coasting(w, since) && w.clock <= now && c.ttl <= now && now - since < c.settings.eventGap
    requires c.settings.maxEventDuration > 0 ==> now - since < c.settings.maxEventDuration
    ensures var w' := FrameWorld(c, w, now, now); Coasting(w', since) && w'.frameAt == now
  {
    assert !T.Active(T.Expire(w.tracker, now, c.ttl));
  }

  /** Quiet frames less than a lease apart carry the event up to `end`, as long as neither timer has run out. */
  lemma {:induction false} Coast(c: Config, delay: int, steps: seq<Step>, since: int, end: int)
    returns (all: seq<Step>)
    requires c.events && E.ValidSettings(c.settings) && c.ttl > 1 && delay >= 0
    requires Possible(c, 0, steps) && PromptRun(c, 0, delay, steps)
    requires forall i :: 0 <= i < |steps| ==> Early(0, steps[i])
    requires var w := Execute(c, 0, steps); Coasting(w, since) && c.ttl <= w.frameAt <= end
    requires Execute(c, 0, steps).frameAt < end ==> end - since < c.settings.eventGap
    requires c.settings.maxEventDuration > 0 ==> end - since < c.settings.maxEventDuration
    ensures Possible(c, 0, all) && PromptRun(c, 0, delay, all)
    ensures forall i :: 0 <= i < |all| ==> Early(0, all[i])
    ensures Execute(c, 0, all).machine.active && Execute(c, 0, all).frameAt == end
    decreases end - Execute(c, 0, steps).frameAt
  {
    hide Possible, Execute, PromptRun, FrameWorld;
    var w := Execute(c, 0, steps);
    if w.frameAt == end {
      return steps;
    }
    var now := if end - w.frameAt < c.ttl then end else w.frameAt + c.ttl - 1;
    ExtendFrame(c, 0, delay, steps, now, now);
    CoastFrame(c, w, since, now);
    all := Coast(c, delay, steps + FrameSteps(now, now), since, end);
  }

  /** Unless the slip is hidden, a prompt run keeps an event open beyond last + lease + gap. */
  lemma SlippingRun(c: Config, delay: int) returns (steps: seq<Step>)
    requires c.ttl > 0 && delay >= 0 && E.ValidSettings(c.settings) && !SlipIsHidden(c, delay)
    ensures Possible(c, 0, steps) && PromptRun(c, 0, delay, steps)
    ensures SilentRun(c, 0, 0, steps)
    ensures !ClosedByLeaseAndGap(c, 0, 0, steps)
  {
    hide Possible, Execute, PromptRun, FrameWorld;
    var late := Slip(c, delay);
    var since := c.ttl - 1 + late;
    MissingFrame(c, delay, late);
    ExtendFrame(c, 0, delay, MissingSteps(late), c.ttl - 1, since);
    ForcedFrame(c, late, since);
    var end := if since < c.ttl + c.settings.eventGap then c.ttl + c.settings.eventGap else since;
    steps := Coast(c, delay, MissingSteps(late) + FrameSteps(c.ttl - 1, since), since, end);
    hide Early, SilentRun;
    EarlyIsSilent(c, 0, 0, steps);
  }

  /**
   For every valid configuration and delay, the bound without the delay holds in every prompt run
   exactly when the slip is hidden.
   */
  lemma PlainBoundExactly(c: Config, delay: int)
    requires c.ttl > 0 && delay >= 0 && E.ValidSettings(c.settings)
    ensures PlainBound(c, delay) <==> SlipIsHidden(c, delay)
  {
    if SlipIsHidden(c, delay) {
      hide SlipIsHidden, ClosedByLeaseAndGap, Possible, PromptRun, SilentRun;
      forall start: int, last: int, steps: seq<Step> |
        Possible(c, start, steps) && PromptRun(c, start, delay, steps)
        && SilentRun(c, start, last, steps)
        ensures ClosedByLeaseAndGap(c, start, last, steps)
      {
        HiddenSlipKeepsBound(c, start, last, delay, steps);
      }
    } else {
      var steps := SlippingRun(c, delay);
      hide SlipIsHidden, ClosedByLeaseAndGap, Possible, PromptRun, SilentRun;
      assert !PlainBound(c, delay);
    }
  }

  /**
   The first frame must not come a whole lease after the `true` either: the trigger counter
   outlives the lease and starts an event that late, however promptly the frame is judged.
   */
  lemma LateFirstFrame(c: Config, late: int) returns (steps: seq<Step>)
    requires c.ttl > 0 && c.events && E.ValidSettings(c.settings) && late >= c.ttl + c.settings.eventGap
    ensures Possible(c, 0, steps) && steps == TrueSteps(0) + FrameSteps(late, late)
    ensures SilentRun(c, 0, 0, steps)
    ensures !ClosedByLeaseAndGap(c, 0, 0, steps)
  {
    hide Possible, Execute, PromptRun, FrameWorld;
    ExtendTrue(c, 0);
    ExtendFrame(c, 0, 0, TrueSteps(0), late, late);
    LateFrame(c, late);
    steps := TrueSteps(0) + FrameSteps(late, late);
    hide SilentRun;
    EarlyIsSilent(c, 0, 0, steps);
  }

  lemma LateFrame(c: Config, late: int)
    requires c.ttl > 0 && c.events && E.ValidSettings(c.settings) && late >= c.ttl
    ensures var w := FrameWorld(c, Triggered(), late, late);
            w.machine.active && w.machine.startedAt == E.At(late) && w.frameAt == late && !T.Active(w.tracker)
  {
    var t := Triggered().tracker;
    assert KEY in t.asserted;
    assert !T.Active(T.Expire(t, late, c.ttl));
  }
}
