/** When the executor signals a job: not before its timeout since the launch, and then without fail. */
module HookDeadlines {
  import opened HookCodec
  import opened HookState
  import opened HookLedger
  import opened HookInvariants
  import opened HookProtocol
  import opened HookChannel
  import opened HookTheorems
  import opened HookEscalation
  import HookIteration

  // ---- Launch times ----

  /** The clock readings of the launches of a run, in the order of their job ids. */
  function LaunchTimes(w: World, steps: seq<Step>, times: seq<int>): seq<int>
    decreases |steps|
  {
    if steps == [] then times
    else LaunchTimes(Next(w, steps[0]), steps[1..], TimesAfter(w, steps[0], times))
  }

  function TimesAfter(w: World, step: Step, times: seq<int>): seq<int> {
    if step.LaunchStep? && Next(w, step).exec.nextJobId > w.exec.nextJobId then times + [step.now] else times
  }

  /** Children were launched when `times` says; terminations came no earlier than the timeout after that, or a stop. */
  ghost predicate OnTime(e: Exec, times: seq<int>) {
    && |times| + 1 == e.nextJobId
    && (forall i :: 0 <= i < |e.children| ==> LaunchedAt(e.children[i], times))
    && (forall i :: 0 <= i < |e.signals| && e.signals[i].action.Terminate? ==> Timely(e, e.signals[i], times))
  }

  predicate LaunchedAt(c: Child, times: seq<int>) {
    1 <= c.jobId <= |times| && c.started == times[c.jobId - 1]
  }

  predicate Timely(e: Exec, s: Signal, times: seq<int>) {
    1 <= s.jobId <= |times| && (e.stopping || s.at - times[s.jobId - 1] >= e.options.timeout)
  }

  /** The children of `e'` were there before, launched at the same times. */
  ghost predicate NoYounger(e: Exec, e': Exec) {
    && e'.options == e.options && e'.nextJobId == e.nextJobId && (e.stopping ==> e'.stopping)
    && (forall i :: 0 <= i < |e'.children| ==> SameAge(e.children, e'.children[i]))
  }

  ghost predicate SameAge(children: seq<Child>, c': Child) {
    exists i :: 0 <= i < |children| && children[i].jobId == c'.jobId && children[i].started == c'.started
  }

  lemma SameChildren(e: Exec, e': Exec)
    requires e'.children == e.children && e'.options == e.options && e'.nextJobId == e.nextJobId
    requires e.stopping ==> e'.stopping
    ensures NoYounger(e, e')
  {
  }

  lemma SendersAge(e: Exec, e': Exec)
    requires Sends(e, e')
    ensures NoYounger(e, e')
  {
    hide CalledFor;
    forall i | 0 <= i < |e'.children| ensures SameAge(e.children, e'.children[i]) {
      assert Descendant(e.children, e'.children[i]);
    }
  }

  lemma SetPidAge(e: Exec, i: nat, pid: int)
    requires i < |e.children|
    ensures NoYounger(e, SetPid(e, i, pid))
  {
    var e' := SetPid(e, i, pid);
    forall k | 0 <= k < |e'.children| ensures SameAge(e.children, e'.children[k]) {
      assert e'.children[k].jobId == e.children[k].jobId;
    }
    hide SameAge;
  }

  lemma FinishAge(e: Exec, i: nat, status: WaitStatus, execErrno: int)
    requires i < |e.children|
    ensures NoYounger(e, Finish(e, i, status, execErrno, OwnResponse))
  {
    FinishSignals(e, i, status, execErrno, OwnResponse);
    hide Finish;
    var e' := Finish(e, i, status, execErrno, OwnResponse);
    forall k | 0 <= k < |e'.children| ensures SameAge(e.children, e'.children[k]) {
      assert e'.children[k] == e.children[if k < i then k else k + 1];
    }
    hide SameAge;
  }

  lemma NoYoungerChain(a: Exec, b: Exec, c: Exec)
    requires NoYounger(a, b) && NoYounger(b, c)
    ensures NoYounger(a, c)
  {
    forall k | 0 <= k < |c.children| ensures SameAge(a.children, c.children[k]) {
      assert SameAge(b.children, c.children[k]);
      var i :| 0 <= i < |b.children| && b.children[i].jobId == c.children[k].jobId
               && b.children[i].started == c.children[k].started;
      assert SameAge(a.children, b.children[i]);
    }
    hide SameAge;
  }

  lemma ReceiveAge(e: Exec, r: Response)
    ensures NoYounger(e, Receive(e, r))
  {
    hide IndexOf, SetPid, Finish, NoYounger;
    var i := IndexOf(e.children, r.jobId);
    SameChildren(e, e);
    if i < |e.children| {
      SetPidAge(e, i, r.pid);
      SetPidAt(e, i, r.pid);
      if r.Finished? {
        var e1 := if e.children[i].pid < 0 then SetPid(e, i, r.pid) else e;
        FinishAge(e1, i, r.status, r.execErrno);
        NoYoungerChain(e, e1, Finish(e1, i, r.status, r.execErrno, OwnResponse));
      }
    }
  }

  /** One more child, launched at `now` under the next job id. */
  ghost predicate OneYounger(e: Exec, e': Exec, now: int) {
    && e'.options == e.options && e'.nextJobId == e.nextJobId + 1 && e'.stopping == e.stopping
    && e'.signals == e.signals
    && |e'.children| == |e.children| + 1 && e'.children[..|e.children|] == e.children
    && e'.children[|e.children|].jobId == e.nextJobId && e'.children[|e.children|].started == now
  }

  lemma StartAge(e: Exec, p: Priority, i: nat, now: int)
    requires i < |Queue(e, p)|
    ensures OneYounger(e, Start(e, p, i, now), now)
  {
    hide RemoveAt;
  }

  lemma LaunchAge(e: Exec, p: Priority, i: nat, outcome: SendOutcome, now: int, gone: bool)
    requires SignalsInv(e) && i < |Queue(e, p)|
    ensures var e' := Launch(e, p, i, outcome, now, gone); NoYounger(e, e') || OneYounger(e, e', now)
  {
    hide SignalsInv, Start, Withdraw, FailSupervisor, Fits, NoYounger, OneYounger;
    var argv := Queue(e, p)[i].request.argv;
    if !Fits(argv) {
      WithdrawUntouched(e, p, i, LaunchFailed(E2BIG));
      SameChildren(e, Withdraw(e, p, i, LaunchFailed(E2BIG)));
    } else {
      match outcome
      case Sent => StartAge(e, p, i, now);
      case WouldBlock => SameChildren(e, Requeue(e, p, i));
      case SendFailed(error) => FailedLaunchAge(e, p, i, if error == 0 then EPIPE else error, now, gone);
    }
  }

  lemma FailedLaunchAge(e: Exec, p: Priority, i: nat, failure: int, now: int, gone: bool)
    requires SignalsInv(e) && i < |Queue(e, p)|
    ensures NoYounger(e, FailSupervisor(Withdraw(e, p, i, LaunchFailed(failure)), failure, now, gone))
  {
    hide SignalsInv, Withdraw, FailSupervisor, Sends, NoYounger;
    var e1 := Withdraw(e, p, i, LaunchFailed(failure));
    WithdrawUntouched(e, p, i, LaunchFailed(failure));
    NoChildren(e, e1);
    SendsNothing(e, e1);
    FailKeepsSignals(e1, failure, now, gone);
    SendsChain(e, e1, FailSupervisor(e1, failure, now, gone));
    SendersAge(e, FailSupervisor(e1, failure, now, gone));
  }

  lemma StepAge(w: World, step: Step)
    requires SignalsInv(w.exec)
    ensures var e, e' := w.exec, Next(w, step).exec;
            NoYounger(e, e') || (step.LaunchStep? && OneYounger(e, e', step.now))
  {
    hide SignalsInv, Submit, HookState.Stop, Launch, Receive, FailSupervisor, ExpireFrom, ReadRequest;
    hide WellFormedArgv, Choose, MayLaunch, Fits, Sends, NoYounger, OneYounger;
    var e := w.exec;
    SameChildren(e, e);
    match step
    case SubmitStep(s) =>
      SubmitUntouched(e, s);
      SameChildren(e, Submit(e, s));
    case StopStep(now) =>
      StopKeepsSignals(e, now);
      SendersAge(e, HookState.Stop(e, now));
    case LaunchStep(outcome, now, gone) =>
      if LaunchEnabled(w) {
        LaunchAge(e, Choose(e).priority, Choose(e).index, outcome, now, gone);
      }
    case ReceiveStep =>
      if w.responses != [] {
        ReceiveAge(e, w.responses[0]);
      }
    case BreakStep(error, now, gone) =>
      FailKeepsSignals(e, error, now, gone);
      SendersAge(e, FailSupervisor(e, error, now, gone));
    case ExpireStep(now, gone) =>
      ExpireFromKeeps(e, 0, now, gone);
      SendersAge(e, ExpireFrom(e, 0, now, gone));
    case SupervisorReads(fork, heard) =>
      if w.supervisor.alive && w.requests != [] && w.waiting != [] {
        ReadKeepsExec(w, fork, heard);
      }
    case _ => SameChildren(e, Next(w, step).exec);
  }

  // ---- Terminations are timely ----

  lemma YoungerOnTime(e: Exec, e': Exec, now: int, times: seq<int>)
    requires OnTime(e, times) && OneYounger(e, e', now)
    ensures OnTime(e', times + [now])
  {
    forall i | 0 <= i < |e'.children| ensures LaunchedAt(e'.children[i], times + [now]) {
      if i < |e.children| {
        assert e'.children[i] == e.children[i] && LaunchedAt(e.children[i], times);
      }
    }
    forall i | 0 <= i < |e'.signals| && e'.signals[i].action.Terminate?
      ensures Timely(e', e'.signals[i], times + [now])
    {
      assert Timely(e, e.signals[i], times);
    }
  }

  lemma NoYoungerOnTime(e: Exec, e': Exec, times: seq<int>)
    requires OnTime(e, times) && NoYounger(e, e') && ToRunning(e, e')
    ensures OnTime(e', times)
  {
    forall i | 0 <= i < |e'.children| ensures LaunchedAt(e'.children[i], times) {
      assert SameAge(e.children, e'.children[i]);
    }
    forall i | 0 <= i < |e'.signals| && e'.signals[i].action.Terminate? ensures Timely(e', e'.signals[i], times) {
      if i < |e.signals| {
        assert e'.signals[i] == e.signals[i] && Timely(e, e.signals[i], times);
      } else {
        assert CalledFor(e.children, e'.signals[i], e');
        DueIsTimely(e, e', e'.signals[i], times);
      }
    }
    hide LaunchedAt, Timely, SameAge, CalledFor;
  }

  lemma DueIsTimely(e: Exec, e': Exec, s: Signal, times: seq<int>)
    requires CalledFor(e.children, s, e') && s.action.Terminate? && e'.options == e.options
    requires forall i :: 0 <= i < |e.children| ==> LaunchedAt(e.children[i], times)
    ensures Timely(e', s, times)
  {
    var i :| 0 <= i < |e.children| && Calls(e.children[i], s, e');
    assert LaunchedAt(e.children[i], times);
  }

  lemma StepOnTime(w: World, step: Step, times: seq<int>)
    requires SignalsInv(w.exec) && OnTime(w.exec, times)
    ensures OnTime(Next(w, step).exec, TimesAfter(w, step, times))
  {
    StepAge(w, step);
    StepKeepsSignals(w, step);
    var e, e' := w.exec, Next(w, step).exec;
    hide Next, SignalsInv, ToRunning;
    if NoYounger(e, e') {
      hide OnTime;
      NoYoungerOnTime(e, e', times);
    } else {
      YoungerOnTime(e, e', step.now, times);
      hide OnTime;
    }
  }

  lemma {:induction false} RunOnTime(w: World, steps: seq<Step>, times: seq<int>)
    requires SignalsInv(w.exec) && OnTime(w.exec, times)
    ensures OnTime(Run(w, steps).exec, LaunchTimes(w, steps, times))
    decreases |steps|
  {
    hide SignalsInv, OnTime, Next, TimesAfter;
    if steps != [] {
      StepKeepsSignals(w, steps[0]);
      StepOnTime(w, steps[0], times);
      RunOnTime(Next(w, steps[0]), steps[1..], TimesAfter(w, steps[0], times));
    }
  }

  /**
   In every run each running job keeps the clock reading of its launch, and until `stop` no job is
   sent a termination before its timeout has passed since that reading.
   */
  lemma TerminationsAreTimely(options: Options, pid: int, steps: seq<Step>)
    ensures var e, times := Run(InitWorld(options, pid), steps).exec, LaunchTimes(InitWorld(options, pid), steps, []);
            && |times| + 1 == e.nextJobId
            && (forall i :: 0 <= i < |e.children| ==> LaunchedAt(e.children[i], times))
            && (forall i :: 0 <= i < |e.signals| && e.signals[i].action.Terminate? ==> Timely(e, e.signals[i], times))
  {
    var w := InitWorld(options, pid);
    assert SignalsInv(w.exec) && OnTime(w.exec, []);
    hide Run, LaunchTimes, InitWorld, SignalsInv;
    RunOnTime(w, steps, []);
  }

  // ---- An expiry pass misses nothing ----

  predicate TerminationDue(e: Exec, c: Child, now: int) {
    c.pid > 0 && !c.timedOut && (e.stopping || now - c.started >= e.options.timeout)
  }

  predicate KillDue(e: Exec, c: Child, now: int) {
    c.timedOut && !c.sentKill && now - c.terminated >= e.options.terminateGrace
  }

  /** The supervisor has not answered a launch request for the response timeout. */
  predicate Unanswered(e: Exec, c: Child, now: int) {
    c.pid < 0 && now - c.started >= e.options.responseTimeout
  }

  /** The signals that a pass at `now` owes to `children`. */
  function Owed(e: Exec, children: seq<Child>, now: int): seq<Signal> {
    if children == [] then []
    else
      var c := children[0];
      (if TerminationDue(e, c, now) then [Signal(c.jobId, Terminate, now)]
       else if KillDue(e, c, now) then [Signal(c.jobId, Kill, now)]
       else []) + Owed(e, children[1..], now)
  }

  lemma {:induction false} OwedByOther(e: Exec, e': Exec, children: seq<Child>, now: int)
    requires e'.options == e.options && e'.stopping == e.stopping
    ensures Owed(e', children, now) == Owed(e, children, now)
  {
    if children != [] {
      OwedByOther(e, e', children[1..], now);
    }
  }

  lemma ExpireChildIs(e: Exec, i: nat, now: int)
    requires i < |e.children|
    ensures var e' := ExpireChild(e, i, now);
            && e'.options == e.options && e'.stopping == e.stopping && e'.supervisorFailed == e.supervisorFailed
            && |e'.children| == |e.children| && e'.children[i + 1..] == e.children[i + 1..]
            && e'.signals == e.signals + Owed(e, [e.children[i]], now)
  {
    assert [e.children[i]][1..] == [];
  }

  lemma PassGoesOn(e: Exec, i: nat, now: int, gone: bool)
    requires i < |e.children| && !Unanswered(e, e.children[i], now)
    ensures ExpireFrom(e, i, now, gone) == ExpireFrom(ExpireChild(e, i, now), i + 1, now, gone)
  {
    hide FailSupervisor, ExpireChild;
  }

  predicate AllAnswered(e: Exec, children: seq<Child>, now: int) {
    forall k :: 0 <= k < |children| ==> !Unanswered(e, children[k], now)
  }

  lemma RestAnswered(e: Exec, e1: Exec, i: nat, now: int)
    requires i < |e.children| == |e1.children| && e1.options == e.options
    requires e1.children[i + 1..] == e.children[i + 1..] && AllAnswered(e, e.children[i..], now)
    ensures !Unanswered(e, e.children[i], now) && AllAnswered(e1, e1.children[i + 1..], now)
  {
    var all, rest := e.children[i..], e.children[i + 1..];
    assert all[0] == e.children[i];
    forall k | 0 <= k < |rest| ensures !Unanswered(e1, rest[k], now) {
      assert rest[k] == all[k + 1];
      assert !Unanswered(e, all[k + 1], now);
    }
  }

  lemma OwedStep(e: Exec, e1: Exec, i: nat, now: int)
    requires i < |e.children| == |e1.children| && e1.options == e.options && e1.stopping == e.stopping
    requires e1.children[i + 1..] == e.children[i + 1..] && e1.signals == e.signals + Owed(e, [e.children[i]], now)
    ensures e.signals + Owed(e, e.children[i..], now) == e1.signals + Owed(e1, e1.children[i + 1..], now)
  {
    hide Owed;
    var c, rest := e.children[i], e.children[i + 1..];
    OwedByOther(e, e1, rest, now);
    assert e.children[i..] == [c] + rest;
    OwedFirst(e, c, rest, now);
  }

  lemma {:induction false} PassSends(e: Exec, i: nat, now: int, gone: bool)
    requires i <= |e.children| && AllAnswered(e, e.children[i..], now)
    ensures var e' := ExpireFrom(e, i, now, gone);
            e'.supervisorFailed == e.supervisorFailed && e'.signals == e.signals + Owed(e, e.children[i..], now)
    decreases |e.children| - i
  {
    if i == |e.children| {
      assert e.children[i..] == [];
    } else {
      hide ExpireFrom, ExpireChild, AllAnswered, Unanswered, Owed;
      var e1 := ExpireChild(e, i, now);
      ExpireChildIs(e, i, now);
      RestAnswered(e, e1, i, now);
      PassGoesOn(e, i, now, gone);
      PassSends(e1, i + 1, now, gone);
      OwedStep(e, e1, i, now);
    }
  }

  lemma OwedFirst(e: Exec, c: Child, rest: seq<Child>, now: int)
    ensures Owed(e, [c] + rest, now) == Owed(e, [c], now) + Owed(e, rest, now)
  {
    assert [c][1..] == [] && ([c] + rest)[1..] == rest;
    hide TerminationDue, KillDue;
  }

  /** `e'` has lost its supervisor, and every child of `e` whose pid was known was killed for it. */
  ghost predicate Lost(e: Exec, e': Exec, now: int) {
    && e'.supervisorFailed && e'.children == []
    && forall k :: 0 <= k < |e.children| && e.children[k].pid > 0 ==>
         Signal(e.children[k].jobId, LossKill, now) in e'.signals
  }

  lemma FirstIsKilled(e: Exec, failure: int, now: int)
    requires e.children != []
    ensures var e', c := Finish(KillLost(e, now), 0, Exited(127), failure, SupervisorLost), e.children[0];
            && e'.children == e.children[1..] && e'.supervisorFailed == e.supervisorFailed && e.signals <= e'.signals
            && (c.pid > 0 ==> Signal(c.jobId, LossKill, now) in e'.signals)
  {
    FinishSignals(KillLost(e, now), 0, Exited(127), failure, SupervisorLost);
    hide Finish;
  }

  lemma {:induction false} AllAreKilled(e: Exec, failure: int, now: int)
    ensures var e' := FinishAll(e, failure, now);
            && e'.supervisorFailed == e.supervisorFailed && e.signals <= e'.signals
            && forall k :: 0 <= k < |e.children| && e.children[k].pid > 0 ==>
                 Signal(e.children[k].jobId, LossKill, now) in e'.signals
    decreases |e.children|
  {
    if e.children != [] {
      FirstIsKilled(e, failure, now);
      hide Finish, KillLost;
      var e1 := Finish(KillLost(e, now), 0, Exited(127), failure, SupervisorLost);
      AllAreKilled(e1, failure, now);
      KilledLater(e.children, e1.signals, FinishAll(e1, failure, now).signals, now);
    }
  }

  lemma KilledLater(children: seq<Child>, before: seq<Signal>, after: seq<Signal>, now: int)
    requires children != [] && before <= after
    requires children[0].pid > 0 ==> Signal(children[0].jobId, LossKill, now) in before
    requires forall k :: 0 <= k < |children[1..]| && children[1..][k].pid > 0 ==>
               Signal(children[1..][k].jobId, LossKill, now) in after
    ensures forall k :: 0 <= k < |children| && children[k].pid > 0 ==>
              Signal(children[k].jobId, LossKill, now) in after
  {
    assert forall s :: s in before ==> s in after;
    forall k | 0 <= k < |children| && children[k].pid > 0
      ensures Signal(children[k].jobId, LossKill, now) in after
    {
      if k > 0 {
        assert children[k] == children[1..][k - 1];
      }
    }
  }

  /** Losing the supervisor kills every child whose pid is known. */
  lemma LossKillsEveryChild(e: Exec, error: int, now: int, gone: bool)
    requires !e.supervisorFailed
    ensures Lost(e, FailSupervisor(e, error, now, gone), now)
  {
    var failure := if error == 0 then EPIPE else error;
    AllAreKilled(ReapSupervisor(e.(supervisorFailed := true, lastError := failure, connected := false), gone),
                 failure, now);
    hide FinishAll;
  }

  lemma SamePids(e: Exec, i: nat, now: int)
    requires i < |e.children|
    ensures var cs := ExpireChild(e, i, now).children;
            |cs| == |e.children| && forall k :: 0 <= k < |cs| ==>
              cs[k].jobId == e.children[k].jobId && cs[k].pid == e.children[k].pid
  {
  }

  lemma LostBefore(e: Exec, e1: Exec, e': Exec, now: int)
    requires Lost(e1, e', now) && |e1.children| == |e.children|
    requires forall k :: 0 <= k < |e.children| ==>
               e1.children[k].jobId == e.children[k].jobId && e1.children[k].pid == e.children[k].pid
    ensures Lost(e, e', now)
  {
    forall k | 0 <= k < |e.children| && e.children[k].pid > 0
      ensures Signal(e.children[k].jobId, LossKill, now) in e'.signals
    {
      assert e1.children[k].pid > 0;
    }
  }

  lemma {:induction false} PassFails(e: Exec, i: nat, now: int, gone: bool, k: nat)
    requires i <= k < |e.children| && Unanswered(e, e.children[k], now) && !e.supervisorFailed
    ensures Lost(e, ExpireFrom(e, i, now, gone), now)
    decreases |e.children| - i
  {
    hide FailSupervisor, ExpireChild, Lost;
    if e.children[i].pid < 0 && now - e.children[i].started >= e.options.responseTimeout {
      LossKillsEveryChild(e, ETIMEDOUT, now, gone);
    } else {
      var e1 := ExpireChild(e, i, now);
      ExpireChildIs(e, i, now);
      SamePids(e, i, now);
      assert e1.children[k] == e1.children[i + 1..][k - i - 1];
      PassFails(e1, i + 1, now, gone, k);
      LostBefore(e, e1, ExpireFrom(e1, i + 1, now, gone), now);
    }
  }

  /** A pass at `now` owes `c` the signal `s`. */
  predicate Owes(e: Exec, c: Child, s: Signal, now: int) {
    s.jobId == c.jobId && s.at == now &&
    match s.action
    case Terminate => TerminationDue(e, c, now)
    case Kill => KillDue(e, c, now)
    case LossKill => false
  }

  lemma {:induction false} OwedExactly(e: Exec, children: seq<Child>, now: int, s: Signal)
    ensures s in Owed(e, children, now) <==> exists i :: 0 <= i < |children| && Owes(e, children[i], s, now)
  {
    if children != [] {
      OwedExactly(e, children[1..], now, s);
      OwedFirst(e, children[0], children[1..], now);
      assert [children[0]] + children[1..] == children;
      OwedToOne(e, children[0], now, s);
      hide Owes, Owed;
      if exists i :: 0 <= i < |children| && Owes(e, children[i], s, now) {
        var i :| 0 <= i < |children| && Owes(e, children[i], s, now);
        assert i > 0 ==> children[1..][i - 1] == children[i];
      }
    }
  }

  lemma OwedToOne(e: Exec, c: Child, now: int, s: Signal)
    ensures s in Owed(e, [c], now) <==> Owes(e, c, s, now)
  {
    assert [c][1..] == [];
  }

  /**
   An expiry pass in any reachable state. It gives the supervisor up exactly when some child has
   waited the response timeout for its pid, and then kills every child whose pid is known. Otherwise
   it sends exactly the signals that are due: a termination to each child whose pid is known, which
   was sent none and whose timeout has passed or which is to stop; a kill to each child that was sent
   a termination at least the grace time ago and no kill.
   */
  lemma ExpiryIsExact(w: World, now: int, gone: bool)
    requires Reachable(w) && !w.exited && !w.exec.supervisorFailed
    ensures var e, e' := w.exec, Next(w, ExpireStep(now, gone)).exec;
            && e.signals <= e'.signals
            && (e'.supervisorFailed <==> exists k :: 0 <= k < |e.children| && Unanswered(e, e.children[k], now))
            && (if e'.supervisorFailed then Lost(e, e', now)
                else forall s :: s in e'.signals[|e.signals|..] <==>
                  exists i :: 0 <= i < |e.children| && Owes(e, e.children[i], s, now))
  {
    ReachableKeepsSignals(w);
    hide Reachable, Run, Next, SignalsInv, Unanswered, Owes, Lost, ExpireFrom, Sends;
    var e, e' := w.exec, ExpireFrom(w.exec, 0, now, gone);
    HookIteration.ExpireIs(w, now, gone);
    PassOnlyAdds(e, now, gone);
    if exists k :: 0 <= k < |e.children| && Unanswered(e, e.children[k], now) {
      var k :| 0 <= k < |e.children| && Unanswered(e, e.children[k], now);
      PassFails(e, 0, now, gone, k);
      LostFails(e, e', now);
    } else {
      assert e.children[0..] == e.children;
      PassSends(e, 0, now, gone);
      assert e'.signals[|e.signals|..] == Owed(e, e.children, now);
      forall s ensures s in Owed(e, e.children, now) <==>
                       exists i :: 0 <= i < |e.children| && Owes(e, e.children[i], s, now)
      {
        OwedExactly(e, e.children, now, s);
      }
    }
  }

  lemma PassOnlyAdds(e: Exec, now: int, gone: bool)
    requires SignalsInv(e)
    ensures e.signals <= ExpireFrom(e, 0, now, gone).signals
  {
    hide SignalsInv, ExpireFrom;
    ExpireFromKeeps(e, 0, now, gone);
  }

  lemma LostFails(e: Exec, e': Exec, now: int)
    requires Lost(e, e', now)
    ensures e'.supervisorFailed
  {
  }
}
