/** The ONVIF notification thread and the frame loop of a worker, interleaved step by step. */
module MotionGlue {
  import T = StateTracker
  import E = EventMachine

  /** `ttl > 0` selects renewable leases; otherwise `timeout` is the hard lifetime. */
  datatype Config = Config(ttl: nat, timeout: int, events: bool, settings: E.Settings)

  function Lifetime(c: Config): int {
    if c.ttl > 0 then c.ttl else c.timeout
  }

  /** How far the holder of the mutex has come in the locked region. */
  datatype Lock = Free | Changed(raise: bool) | Raised | Dropped

  /** How far the frame loop has come with its current packet; `at` is the clock its expiry pass read. */
  datatype Loop =
    | Idle
    | Swept(at: int)
    | Loaded(at: int, edge: bool, timedOut: bool)
    | Judged(at: int, edge: bool, timedOut: bool, triggered: bool)

  /**
   `clock` is the latest clock reading of either thread, `frameAt` the one with which the latest
   analysed frame updated the event machine, and `loadedAt` the one its expiry pass had read.
   */
  datatype World = World(
    tracker: T.Tracker, lock: Lock, flag: bool, triggers: nat, timeouts: nat,
    loop: Loop, seenTriggers: nat, seenTimeouts: nat, triggerFrames: int, machine: E.Machine,
    clock: int, loadedAt: int, frameAt: int)

  function Init(start: int): World {
    World(T.EMPTY, Free, false, 0, 0, Idle, 0, 0, 0, E.INITIAL, start, start, start)
  }

  datatype Step =
    | Notify(key: T.Key, active: bool, holdsState: bool, now: int)
    | Raise
    | Publish
    | Disconnect
    | PublishDisconnect
    | Sweep(now: int)
    | SkipFrame
    | LoadGenerations
    | LoadFlag
    | Analyse(local: bool, now: int)
    | SourceLost

  predicate Enabled(w: World, step: Step) {
    match step
    case Notify(_, _, _, now) => w.lock.Free? && w.clock <= now
    case Raise => w.lock.Changed?
    case Publish => w.lock.Raised?
    case Disconnect => w.lock.Free?
    case PublishDisconnect => w.lock.Dropped?
    case Sweep(now) => w.loop.Idle? && w.lock.Free? && w.clock <= now
    case SkipFrame => w.loop.Swept?
    case LoadGenerations => w.loop.Swept?
    case LoadFlag => w.loop.Loaded?
    case Analyse(_, now) => w.loop.Judged? && w.clock <= now
    case SourceLost => w.loop.Idle?
  }

  // ---- The notification thread ----

  function DoNotify(c: Config, w: World, key: T.Key, active: bool, holdsState: bool, now: int): World {
    var keeps := c.ttl > 0 || holdsState;
    var accepted := !keeps || T.Accepts(w.tracker, key, active, c.ttl > 0);
    w.(tracker := if keeps then T.Update(w.tracker, key, active, now, c.ttl > 0) else w.tracker,
       lock := Changed(active && accepted), clock := now)
  }

  function DoRaise(w: World): World
    requires w.lock.Changed?
  {
    w.(triggers := if w.lock.raise then w.triggers + 1 else w.triggers, lock := Raised)
  }

  function DoPublish(w: World): World {
    w.(flag := T.Active(w.tracker), lock := Free)
  }

  /** The step is a `true` that the tracker accepts or need not hold; a suppressed key's repeat is neither. */
  predicate Asserts(c: Config, w: World, step: Step) {
    step.Notify? && step.active
    && (!(c.ttl > 0 || step.holdsState) || T.Accepts(w.tracker, step.key, true, c.ttl > 0))
  }

  // ---- The frame loop ----

  /** Expires states; under the hard lifetime the last one to go also raises the timeout counter. */
  function DoSweep(c: Config, w: World, now: int): World {
    var t := T.Expire(w.tracker, now, Lifetime(c));
    var wentInactive := T.Active(w.tracker) && !T.Active(t);
    w.(tracker := t, flag := T.Active(t), loop := Swept(now), clock := now,
       timeouts := if wentInactive && c.ttl == 0 then w.timeouts + 1 else w.timeouts)
  }

  function DoLoadGenerations(w: World): World
    requires w.loop.Swept?
  {
    var edge := w.triggers != w.seenTriggers;
    w.(loop := Loaded(w.loop.at, edge, w.timeouts != w.seenTimeouts),
       seenTimeouts := w.timeouts, seenTriggers := w.triggers,
       triggerFrames := if edge then 1 else w.triggerFrames, loadedAt := w.loop.at)
  }

  function DoLoadFlag(w: World): World
    requires w.loop.Loaded?
  {
    w.(loop := Judged(w.loop.at, w.loop.edge, w.loop.timedOut, w.flag || w.triggerFrames > 0))
  }

  function Analysed(c: Config, w: World, local: bool, now: int): E.Machine
    requires w.loop.Judged?
  {
    var qualifying := local || (c.events && w.loop.triggered);
    if w.loop.timedOut && w.machine.active && !local && !w.loop.triggered then E.Stop(w.machine).0
    else E.Update(c.settings, w.machine, qualifying, now, c.events && w.loop.edge).0
  }

  function DoAnalyse(c: Config, w: World, local: bool, now: int): World
    requires w.loop.Judged?
  {
    w.(machine := Analysed(c, w, local, now), loop := Idle, clock := now, frameAt := now,
       triggerFrames := if w.triggerFrames > 0 then w.triggerFrames - 1 else w.triggerFrames)
  }

  function Next(c: Config, w: World, step: Step): World
    requires Enabled(w, step)
  {
    match step
    case Notify(key, active, holdsState, now) => DoNotify(c, w, key, active, holdsState, now)
    case Raise => DoRaise(w)
    case Publish => DoPublish(w)
    case Disconnect => w.(tracker := T.EMPTY, lock := Dropped)
    case PublishDisconnect => w.(flag := false, lock := Free)
    case Sweep(now) => DoSweep(c, w, now)
    case SkipFrame => w.(loop := Idle)
    case LoadGenerations => DoLoadGenerations(w)
    case LoadFlag => DoLoadFlag(w)
    case Analyse(local, now) => DoAnalyse(c, w, local, now)
    case SourceLost => if w.machine.active then w.(machine := E.Stop(w.machine).0) else w
  }

  /** A run is possible when each step is enabled where it is taken. */
  predicate Possible(c: Config, start: int, steps: seq<Step>)
    decreases |steps|, 0
  {
    steps == [] ||
    (Possible(c, start, steps[..|steps| - 1]) && Enabled(Execute(c, start, steps[..|steps| - 1]), steps[|steps| - 1]))
  }

  function Execute(c: Config, start: int, steps: seq<Step>): World
    requires Possible(c, start, steps)
    decreases |steps|, 1
  {
    if steps == [] then Init(start) else Next(c, Execute(c, start, steps[..|steps| - 1]), steps[|steps| - 1])
  }

  // ---- The published flag ----

  predicate FlagInv(w: World) {
    && (w.lock.Free? ==> (w.flag <==> T.Active(w.tracker)))
    && (w.lock.Dropped? ==> !T.Active(w.tracker))
  }

  lemma FlagStep(c: Config, w: World, step: Step)
    requires FlagInv(w) && Enabled(w, step)
    ensures FlagInv(Next(c, w, step))
  {
    hide Analysed, T.Expire, T.Update;
  }

  /** Whenever the mutex is free the published motion flag says whether the tracker is active. */
  lemma {:induction false} FlagMatchesTracker(c: Config, start: int, steps: seq<Step>)
    requires Possible(c, start, steps)
    ensures FlagInv(Execute(c, start, steps))
  {
    if steps != [] {
      FlagMatchesTracker(c, start, steps[..|steps| - 1]);
      FlagStep(c, Execute(c, start, steps[..|steps| - 1]), steps[|steps| - 1]);
    }
  }
}
