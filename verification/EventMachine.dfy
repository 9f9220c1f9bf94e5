/** Grouping motion frames into events. */
module EventMachine {
  import opened Prelude

  /** Durations and times are in nanoseconds. */
  datatype Settings = Settings(minimumMotionFrames: int, eventGap: int, postCaptureFrames: int, maxEventDuration: int)

  predicate ValidSettings(s: Settings) {
    s.minimumMotionFrames >= 1 && s.postCaptureFrames >= 0 && s.eventGap >= 0 && s.maxEventDuration >= 0
  }

  datatype Time = Never | At(time: int)

  datatype Machine = Machine(active: bool, consecutive: int, postCapture: int, number: nat,
                             lastMotion: Time, startedAt: Time)

  datatype Decision = Decision(motionDetected: bool, eventStarted: bool, eventEnded: bool,
                               recordFrame: bool, eventNumber: nat)

  const INITIAL: Machine := Machine(false, 0, 0, 0, Never, Never)

  function Ended(m: Machine): Machine {
    Machine(false, 0, 0, m.number, Never, Never)
  }

  predicate ReachedMaximum(s: Settings, m: Machine, now: int) {
    m.active && m.startedAt.At? && s.maxEventDuration > 0 && now - m.startedAt.time >= s.maxEventDuration
  }

  function Consecutive(s: Settings, m: Machine, motion: bool, force: bool): int {
    if !motion then 0 else if force then s.minimumMotionFrames else Min(m.consecutive + 1, s.minimumMotionFrames)
  }

  predicate GapPassed(s: Settings, m: Machine, now: int) {
    m.active && m.lastMotion.At? && now - m.lastMotion.time >= s.eventGap
  }

  /** A frame with motion. */
  function Motion(s: Settings, m: Machine, now: int, force: bool): (Machine, Decision) {
    var c := Consecutive(s, m, true, force);
    if c >= s.minimumMotionFrames then
      var number := if m.active then m.number else m.number + 1;
      (Machine(true, c, s.postCaptureFrames, number, At(now), if m.active then m.startedAt else At(now)),
       Decision(true, !m.active, false, true, number))
    else
      var record := m.active && m.postCapture > 0;
      (m.(consecutive := c, lastMotion := if m.active then At(now) else m.lastMotion,
          postCapture := if record then m.postCapture - 1 else m.postCapture),
       Decision(false, false, false, record, m.number))
  }

  /** A frame without motion. */
  function Quiet(s: Settings, m: Machine, now: int): (Machine, Decision) {
    var record := m.active && m.postCapture > 0;
    if GapPassed(s, m, now) then (Ended(m), Decision(false, false, true, false, m.number))
    else (m.(consecutive := 0, postCapture := if record then m.postCapture - 1 else m.postCapture),
          Decision(false, false, false, record, m.number))
  }

  function Update(s: Settings, m: Machine, motion: bool, now: int, force: bool): (Machine, Decision) {
    if ReachedMaximum(s, m, now) then (Ended(m), Decision(false, false, true, false, m.number))
    else if motion then Motion(s, m, now, force)
    else Quiet(s, m, now)
  }

  function Stop(m: Machine): (Machine, Decision) {
    (Ended(m), Decision(false, false, m.active, false, m.number))
  }

  class EventStateMachine {
    const settings: Settings
    var active: bool
    var consecutiveMotion: int
    var postCaptureRemaining: int
    var eventNumber: nat
    var lastMotion: Time
    var eventStartedAt: Time

    function View(): Machine
      reads this
    {
      Machine(active, consecutiveMotion, postCaptureRemaining, eventNumber, lastMotion, eventStartedAt)
    }

    constructor (s: Settings)
      requires ValidSettings(s)
      ensures settings == s && View() == INITIAL
    {
      settings := s;
      active, consecutiveMotion, postCaptureRemaining, eventNumber := false, 0, 0, 0;
      lastMotion, eventStartedAt := Never, Never;
    }

    /** Settings the machine cannot work with are refused. */
    static method Create(s: Settings) returns (m: EventStateMachine?)
      ensures m != null <==> ValidSettings(s)
      ensures m != null ==> fresh(m) && m.settings == s && m.View() == INITIAL
    {
      if s.minimumMotionFrames < 1 || s.postCaptureFrames < 0 || s.eventGap < 0 || s.maxEventDuration < 0 {
        return null;
      }
      m := new EventStateMachine(s);
    }

    method UpdateFrame(motion: bool, now: int, force: bool) returns (d: Decision)
      modifies this
      ensures (View(), d) == Update(settings, old(View()), motion, now, force)
    {
      d := Decision(false, false, false, false, 0);
      if active && eventStartedAt.At? && settings.maxEventDuration > 0
         && now - eventStartedAt.time >= settings.maxEventDuration {
        active := false;
        d := d.(eventEnded := true, eventNumber := eventNumber);
        lastMotion, eventStartedAt := Never, Never;
        postCaptureRemaining, consecutiveMotion := 0, 0;
        return;
      }
      if motion {
        consecutiveMotion := if force then settings.minimumMotionFrames
                             else Min(consecutiveMotion + 1, settings.minimumMotionFrames);
      } else {
        consecutiveMotion := 0;
      }
      var confirmed := motion && consecutiveMotion >= settings.minimumMotionFrames;
      if active && motion {
        lastMotion := At(now);
      }
      if confirmed {
        d := d.(motionDetected := true);
        lastMotion, postCaptureRemaining := At(now), settings.postCaptureFrames;
        if !active {
          active, eventStartedAt := true, At(now);
          eventNumber := eventNumber + 1;
          d := d.(eventStarted := true);
        }
      } else if active && postCaptureRemaining > 0 {
        d := d.(recordFrame := true);
        postCaptureRemaining := postCaptureRemaining - 1;
      }
      d := d.(recordFrame := d.recordFrame || (active && confirmed));
      if active && lastMotion.At? && !motion && now - lastMotion.time >= settings.eventGap {
        active := false;
        d := d.(eventEnded := true, recordFrame := false);
        lastMotion, eventStartedAt, postCaptureRemaining := Never, Never, 0;
      }
      d := d.(eventNumber := eventNumber);
    }

    method StopNow() returns (d: Decision)
      modifies this
      ensures (View(), d) == Stop(old(View()))
    {
      d := Decision(false, false, false, false, eventNumber);
      if active {
        active := false;
        d := d.(eventEnded := true);
      }
      lastMotion, eventStartedAt := Never, Never;
      postCaptureRemaining, consecutiveMotion := 0, 0;
    }
  }
}
