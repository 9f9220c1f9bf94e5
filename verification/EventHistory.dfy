/** What a whole run of the event machine amounts to, told from its inputs and decisions alone. */
module EventHistory {
  import opened EventMachine
  import opened Prelude

  datatype Input = Frame(motion: bool, now: int, force: bool) | Shutdown

  function Step(s: Settings, m: Machine, input: Input): (Machine, Decision) {
    match input
    case Frame(motion, now, force) => Update(s, m, motion, now, force)
    case Shutdown => Stop(m)
  }

  function Final(s: Settings, inputs: seq<Input>): Machine {
    if inputs == [] then INITIAL else Step(s, Final(s, inputs[..|inputs| - 1]), inputs[|inputs| - 1]).0
  }

  /** The decision taken on input `i` of the run. */
  function DecisionAt(s: Settings, inputs: seq<Input>, i: nat): Decision
    requires i < |inputs|
  {
    Step(s, Final(s, inputs[..i]), inputs[i]).1
  }

  lemma RunStep(s: Settings, inputs: seq<Input>)
    requires inputs != []
    ensures var n := |inputs| - 1;
            Step(s, Final(s, inputs[..n]), inputs[n]) == (Final(s, inputs), DecisionAt(s, inputs, n))
  {
  }

  // ---- Starts and ends ----

  datatype Mark = Began(number: nat) | Finished(number: nat)

  function MarkOf(d: Decision): seq<Mark> {
    if d.eventStarted then [Began(d.eventNumber)] else if d.eventEnded then [Finished(d.eventNumber)] else []
  }

  function Marks(s: Settings, inputs: seq<Input>): seq<Mark> {
    if inputs == [] then []
    else Marks(s, inputs[..|inputs| - 1]) + MarkOf(DecisionAt(s, inputs, |inputs| - 1))
  }

  predicate Alternating(marks: seq<Mark>) {
    forall i :: 0 <= i < |marks| ==> marks[i] == if i % 2 == 0 then Began(i / 2 + 1) else Finished(i / 2 + 1)
  }

  lemma StepMarks(s: Settings, m: Machine, input: Input)
    ensures var (m', d) := Step(s, m, input);
            && !(d.eventStarted && d.eventEnded)
            && d.eventNumber == m'.number
            && m'.number == (if d.eventStarted then m.number + 1 else m.number)
            && (d.eventStarted ==> !m.active && m'.active)
            && (d.eventEnded ==> m.active && !m'.active)
            && (!d.eventStarted && !d.eventEnded ==> m'.active == m.active)
  {
  }

  /** Starts and ends alternate, starts are numbered 1, 2, ..., and each end carries its start's number. */
  lemma {:induction false} StartsAndEndsAlternate(s: Settings, inputs: seq<Input>)
    ensures var m, marks := Final(s, inputs), Marks(s, inputs);
            Alternating(marks) && |marks| == 2 * m.number - (if m.active then 1 else 0)
  {
    if inputs != [] {
      var n := |inputs| - 1;
      StartsAndEndsAlternate(s, inputs[..n]);
      RunStep(s, inputs);
      StepMarks(s, Final(s, inputs[..n]), inputs[n]);
      hide Step, DecisionAt, Final;
      var before, d := Marks(s, inputs[..n]), DecisionAt(s, inputs, n);
      assert Marks(s, inputs) == before + MarkOf(d);
      hide Marks;
    }
  }

  // ---- What is in force after a run ----

  /** How many frames with motion, none of them ending an event, stand at the end of the run. */
  function Streak(s: Settings, inputs: seq<Input>): (n: nat)
    ensures n <= |inputs|
  {
    if inputs == [] then 0
    else
      var n := |inputs| - 1;
      if inputs[n].Frame? && inputs[n].motion && !DecisionAt(s, inputs, n).eventEnded
      then Streak(s, inputs[..n]) + 1 else 0
  }

  /** The latest input that started an event, or -1. */
  function LatestStart(s: Settings, inputs: seq<Input>): (k: int)
    ensures -1 <= k < |inputs|
    ensures k >= 0 ==> DecisionAt(s, inputs, k).eventStarted
    ensures forall i :: 0 <= i < |inputs| && k < i ==> !DecisionAt(s, inputs, i).eventStarted
  {
    if inputs == [] then -1
    else
      var n := |inputs| - 1;
      DecisionsOfPrefix(s, inputs, n);
      if DecisionAt(s, inputs, n).eventStarted then n else LatestStart(s, inputs[..n])
  }

  /** One of the frames of that streak was forced. */
  predicate Forced(s: Settings, inputs: seq<Input>) {
    exists i :: |inputs| - Streak(s, inputs) <= i < |inputs| && inputs[i].Frame? && inputs[i].force
  }

  /** Input `k` is a frame that closes a long enough or forced streak. */
  predicate Confirms(s: Settings, inputs: seq<Input>, k: nat)
    requires k < |inputs|
  {
    Streak(s, inputs[..k + 1]) > 0
    && (Streak(s, inputs[..k + 1]) >= s.minimumMotionFrames || Forced(s, inputs[..k + 1]))
  }

  /** The latest input that confirmed motion, or -1. */
  function LatestDetection(s: Settings, inputs: seq<Input>): (k: int)
    ensures -1 <= k < |inputs|
    ensures k >= 0 ==> Confirms(s, inputs, k)
    ensures forall i :: 0 <= i < |inputs| && k < i ==> !Confirms(s, inputs, i)
  {
    if inputs == [] then -1
    else
      var n := |inputs| - 1;
      ConfirmsOfPrefix(s, inputs, n);
      if Confirms(s, inputs, n) then n else LatestDetection(s, inputs[..n])
  }

  lemma ConfirmsOfPrefix(s: Settings, inputs: seq<Input>, n: nat)
    requires n <= |inputs|
    ensures forall i :: 0 <= i < n ==> Confirms(s, inputs[..n], i) == Confirms(s, inputs, i)
  {
    forall i | 0 <= i < n ensures Confirms(s, inputs[..n], i) == Confirms(s, inputs, i) {
      assert inputs[..n][..i + 1] == inputs[..i + 1];
    }
  }

  /** The latest frame with motion, confirmed or not, or -1. */
  function LatestMotion(inputs: seq<Input>): (k: int)
    ensures -1 <= k < |inputs|
    ensures k >= 0 ==> inputs[k].Frame? && inputs[k].motion
    ensures forall i :: 0 <= i < |inputs| && k < i ==> !(inputs[i].Frame? && inputs[i].motion)
  {
    if inputs == [] then -1
    else
      var n := |inputs| - 1;
      if inputs[n].Frame? && inputs[n].motion then n else LatestMotion(inputs[..n])
  }

  lemma DecisionsOfPrefix(s: Settings, inputs: seq<Input>, n: nat)
    requires n <= |inputs|
    ensures forall i :: 0 <= i < n ==> DecisionAt(s, inputs[..n], i) == DecisionAt(s, inputs, i)
  {
    forall i | 0 <= i < n ensures DecisionAt(s, inputs[..n], i) == DecisionAt(s, inputs, i) {
      assert inputs[..n][..i] == inputs[..i];
    }
  }

  function TimeOf(inputs: seq<Input>, k: int): Time {
    if 0 <= k < |inputs| && inputs[k].Frame? then At(inputs[k].now) else Never
  }

  function Remaining(s: Settings, since: int): int {
    if since >= s.postCaptureFrames then 0 else s.postCaptureFrames - since
  }

  /** Every field of the machine is an account of the run so far. */
  predicate Accounts(s: Settings, inputs: seq<Input>, m: Machine) {
    if m.active then
      && m.startedAt == TimeOf(inputs, LatestStart(s, inputs)) && m.startedAt.At?
      && m.lastMotion == TimeOf(inputs, LatestMotion(inputs)) && m.lastMotion.At?
      && m.postCapture == Remaining(s, |inputs| - 1 - LatestDetection(s, inputs))
      && 0 <= LatestStart(s, inputs) <= LatestDetection(s, inputs) <= LatestMotion(inputs)
    else
      m.consecutive == Streak(s, inputs) < s.minimumMotionFrames
  }

  /** The counter of consecutive frames is the streak, cut off at what a forced frame makes it. */
  lemma {:induction false} CountsStreak(s: Settings, inputs: seq<Input>)
    requires ValidSettings(s)
    ensures Final(s, inputs).consecutive
            == if Forced(s, inputs) then s.minimumMotionFrames else Min(Streak(s, inputs), s.minimumMotionFrames)
  {
    if inputs != [] {
      var n := |inputs| - 1;
      CountsStreak(s, inputs[..n]);
      RunStep(s, inputs);
      StreakStep(s, inputs);
      StepCounts(s, Final(s, inputs[..n]), inputs[n]);
      hide Step, Final, DecisionAt, Streak, Forced;
    }
  }

  lemma StreakStep(s: Settings, inputs: seq<Input>)
    requires inputs != []
    ensures var n := |inputs| - 1;
            if inputs[n].Frame? && inputs[n].motion && !DecisionAt(s, inputs, n).eventEnded then
              && Streak(s, inputs) == Streak(s, inputs[..n]) + 1
              && (Forced(s, inputs) <==> inputs[n].force || Forced(s, inputs[..n]))
            else Streak(s, inputs) == 0 && !Forced(s, inputs)
  {
    hide DecisionAt;
    var n := |inputs| - 1;
    if Forced(s, inputs[..n]) {
      var i :| n - Streak(s, inputs[..n]) <= i < n && inputs[..n][i].Frame? && inputs[..n][i].force;
      assert inputs[i] == inputs[..n][i];
    }
    if Forced(s, inputs) && !inputs[n].Shutdown? && !inputs[n].force {
      var i :| |inputs| - Streak(s, inputs) <= i < |inputs| && inputs[i].Frame? && inputs[i].force;
      assert inputs[i] == inputs[..n][i];
    }
  }

  lemma StepCounts(s: Settings, m: Machine, input: Input)
    ensures var (m', d) := Step(s, m, input);
            m'.consecutive == if input.Frame? && input.motion && !d.eventEnded then
                                if input.force then s.minimumMotionFrames
                                else Min(m.consecutive + 1, s.minimumMotionFrames)
                              else 0
  {
  }

  /** A decision reports motion exactly when its frame confirms it. */
  lemma DetectionIs(s: Settings, inputs: seq<Input>)
    requires ValidSettings(s) && inputs != []
    ensures var n := |inputs| - 1; DecisionAt(s, inputs, n).motionDetected <==> Confirms(s, inputs, n)
  {
    var n := |inputs| - 1;
    assert inputs[..n + 1] == inputs;
    CountsStreak(s, inputs);
    RunStep(s, inputs);
    StreakStep(s, inputs);
    StepDetects(s, Final(s, inputs[..n]), inputs[n]);
    hide Step, Final, DecisionAt, Streak, Forced;
  }

  lemma StepDetects(s: Settings, m: Machine, input: Input)
    requires ValidSettings(s)
    ensures var (m', d) := Step(s, m, input);
            d.motionDetected <==>
            input.Frame? && input.motion && !d.eventEnded && m'.consecutive >= s.minimumMotionFrames
  {
  }

  lemma {:induction false} RunAccounts(s: Settings, inputs: seq<Input>)
    requires ValidSettings(s)
    ensures Accounts(s, inputs, Final(s, inputs))
  {
    if inputs != [] {
      var n := |inputs| - 1;
      RunAccounts(s, inputs[..n]);
      RunStep(s, inputs);
      DetectionIs(s, inputs);
      ConfirmsOfPrefix(s, inputs, n);
      hide Confirms;
      AccountsStep(s, inputs, Final(s, inputs[..n]));
    }
  }

  lemma AccountsStep(s: Settings, inputs: seq<Input>, m: Machine)
    requires ValidSettings(s) && inputs != []
    requires var n := |inputs| - 1;
             && Accounts(s, inputs[..n], m) && Step(s, m, inputs[n]) == (Final(s, inputs), DecisionAt(s, inputs, n))
             && (DecisionAt(s, inputs, n).motionDetected <==> Confirms(s, inputs, n))
    ensures Accounts(s, inputs, Final(s, inputs))
  {
    var n := |inputs| - 1;
    hide Final, DecisionAt, Confirms;
    assert LatestMotion(inputs) == if inputs[n].Frame? && inputs[n].motion then n else LatestMotion(inputs[..n]);
  }

  // ---- Main results ----

  /**
   An idle machine starts an event on a frame with motion exactly when the frame is forced or
   completes the required number of consecutive frames with motion; an active one never does.
   */
  lemma StartsExactly(s: Settings, inputs: seq<Input>, motion: bool, now: int, force: bool)
    requires ValidSettings(s)
    ensures var d := Step(s, Final(s, inputs), Frame(motion, now, force)).1;
            d.eventStarted <==>
            !Final(s, inputs).active && motion && (force || Streak(s, inputs) + 1 >= s.minimumMotionFrames)
  {
    RunAccounts(s, inputs);
    hide Final, Streak;
  }

  /**
   An active event ends on a frame exactly when it reaches its maximum duration, or when the frame
   has no motion and the latest frame with motion lies at least the gap behind.
   */
  lemma EndsExactly(s: Settings, inputs: seq<Input>, motion: bool, now: int, force: bool)
    requires ValidSettings(s)
    ensures var d := Step(s, Final(s, inputs), Frame(motion, now, force)).1;
            var start, latest := TimeOf(inputs, LatestStart(s, inputs)), TimeOf(inputs, LatestMotion(inputs));
            if Final(s, inputs).active then
              start.At? && latest.At? && (d.eventEnded <==>
                                          (s.maxEventDuration > 0 && now - start.time >= s.maxEventDuration)
                                          || (!motion && now - latest.time >= s.eventGap))
            else !d.eventEnded
  {
    RunAccounts(s, inputs);
    hide Final, LatestStart, LatestMotion, LatestDetection, Streak;
  }

  /**
   Motion is reported exactly on a frame with motion that does not end the event and closes an
   unbroken streak of such frames which contains a forced one or is as long as required, whether or
   not an event is active.
   */
  lemma DetectsExactly(s: Settings, inputs: seq<Input>, motion: bool, now: int, force: bool)
    requires ValidSettings(s)
    ensures var d := Step(s, Final(s, inputs), Frame(motion, now, force)).1;
            d.motionDetected <==>
            motion && !d.eventEnded
            && (force || Forced(s, inputs) || Streak(s, inputs) + 1 >= s.minimumMotionFrames)
  {
    CountsStreak(s, inputs);
    StepDetects(s, Final(s, inputs), Frame(motion, now, force));
    StepCounts(s, Final(s, inputs), Frame(motion, now, force));
    hide Final, Step, Streak, Forced;
  }

  /**
   A frame is recorded exactly while an event is active after it and it closes such a streak itself
   or follows the latest frame that did by at most the post-capture count.
   */
  lemma RecordsExactly(s: Settings, inputs: seq<Input>, motion: bool, now: int, force: bool)
    requires ValidSettings(s)
    ensures var (m, d) := Step(s, Final(s, inputs), Frame(motion, now, force));
            d.recordFrame <==>
            m.active && ((motion && (force || Forced(s, inputs) || Streak(s, inputs) + 1 >= s.minimumMotionFrames))
                         || |inputs| - LatestDetection(s, inputs) <= s.postCaptureFrames)
  {
    RunAccounts(s, inputs);
    DetectsExactly(s, inputs, motion, now, force);
    hide Final, LatestStart, LatestMotion, LatestDetection, Streak, Forced;
  }
}
