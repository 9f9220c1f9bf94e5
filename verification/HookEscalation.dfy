/** Which signals the executor sends to its children: terminate, then kill, and kill when the supervisor is lost. */
module HookEscalation {
  import opened HookCodec
  import opened HookState
  import opened HookLedger
  import opened HookInvariants
  import opened HookProtocol
  import opened HookChannel
  import opened HookTheorems

  /**
   No job is sent the same kind of signal twice; an escalation kill follows a termination by at
   least the grace time; the kill for a lost supervisor is the last signal a job is sent.
   */
  ghost predicate Orderly(signals: seq<Signal>, grace: int) {
    && (forall i, k :: 0 <= i < k < |signals| && signals[i].jobId == signals[k].jobId ==>
          signals[i].action != signals[k].action && !signals[i].action.LossKill?)
    && (forall k :: 0 <= k < |signals| && signals[k].action.Kill? ==> Warned(signals, k, grace))
  }

  ghost predicate Warned(signals: seq<Signal>, k: nat, grace: int)
    requires k < |signals|
  {
    exists i :: 0 <= i < k && signals[i].jobId == signals[k].jobId && signals[i].action.Terminate?
                && signals[k].at - signals[i].at >= grace
  }

  ghost predicate WasSent(signals: seq<Signal>, id: nat, action: Action) {
    exists i :: 0 <= i < |signals| && signals[i].jobId == id && signals[i].action == action
  }

  /** The flags of a child say which signals it has been sent. */
  ghost predicate FlagsOk(signals: seq<Signal>, c: Child) {
    && (c.timedOut <==> WasSent(signals, c.jobId, Terminate))
    && (c.sentKill <==> WasSent(signals, c.jobId, Kill))
    && (c.timedOut ==> Signal(c.jobId, Terminate, c.terminated) in signals)
    && !WasSent(signals, c.jobId, LossKill)
  }

  ghost predicate IdsOk(e: Exec) {
    && (forall i :: 0 <= i < |e.children| ==> e.children[i].jobId < e.nextJobId)
    && (forall i, k :: 0 <= i < k < |e.children| ==> e.children[i].jobId != e.children[k].jobId)
    && (forall i :: 0 <= i < |e.signals| ==> e.signals[i].jobId < e.nextJobId)
  }

  ghost predicate SignalsInv(e: Exec) {
    && IdsOk(e) && Orderly(e.signals, e.options.terminateGrace)
    && (forall i :: 0 <= i < |e.children| ==> FlagsOk(e.signals, e.children[i]))
  }

  // ---- Who is sent a signal, and when ----

  /** The same child later on: its process and its launch time stay, and a termination is not forgotten. */
  predicate Descends(c: Child, c': Child) {
    c'.jobId == c.jobId && c'.pid == c.pid && c'.started == c.started && (c.timedOut ==> c'.timedOut)
  }

  ghost predicate Descendant(children: seq<Child>, c': Child) {
    exists i :: 0 <= i < |children| && Descends(children[i], c')
  }

  /**
   What calls for a signal to `c`: a termination needs a known pid, the first such signal, and the
   timeout since the launch or a stop; the kill of a loss needs a known pid and a lost supervisor.
   What calls for the kill of an escalation is in `Orderly`.
   */
  predicate Calls(c: Child, s: Signal, e': Exec) {
    s.jobId == c.jobId &&
    match s.action
    case Terminate => c.pid > 0 && !c.timedOut && (e'.stopping || s.at - c.started >= e'.options.timeout)
    case Kill => true
    case LossKill => c.pid > 0 && e'.supervisorFailed
  }

  ghost predicate CalledFor(children: seq<Child>, s: Signal, e': Exec) {
    exists i :: 0 <= i < |children| && Calls(children[i], s, e')
  }

  /** All that `e'` has sent beyond `e` was called for by children of `e`, and it has no other children. */
  ghost predicate Sends(e: Exec, e': Exec) {
    && e'.options == e.options && e'.nextJobId == e.nextJobId
    && (e.stopping ==> e'.stopping) && (e.supervisorFailed ==> e'.supervisorFailed)
    && e.signals <= e'.signals
    && (forall i :: |e.signals| <= i < |e'.signals| ==> CalledFor(e.children, e'.signals[i], e'))
    && (forall i :: 0 <= i < |e'.children| ==> Descendant(e.children, e'.children[i]))
  }

  lemma ItsOwnChildren(e: Exec)
    ensures forall i :: 0 <= i < |e.children| ==> Descendant(e.children, e.children[i])
  {
    forall i | 0 <= i < |e.children| ensures Descendant(e.children, e.children[i]) {
      assert Descends(e.children[i], e.children[i]);
    }
  }

  lemma SendsNothing(e: Exec, e': Exec)
    requires e'.signals == e.signals && (e'.children == e.children || e'.children == [])
    requires e'.options == e.options && e'.nextJobId == e.nextJobId
    requires (e.stopping ==> e'.stopping) && (e.supervisorFailed ==> e'.supervisorFailed)
    ensures Sends(e, e')
  {
    ItsOwnChildren(e);
    hide Descendant;
  }

  lemma SendsChain(a: Exec, b: Exec, c: Exec)
    requires Sends(a, b) && Sends(b, c)
    ensures Sends(a, c)
  {
    forall i | 0 <= i < |c.children| ensures Descendant(a.children, c.children[i]) {
      assert Descendant(b.children, c.children[i]);
      DescendantChain(a.children, b.children, c.children[i]);
    }
    forall i | |a.signals| <= i < |c.signals| ensures CalledFor(a.children, c.signals[i], c) {
      if i < |b.signals| {
        assert c.signals[i] == b.signals[i];
        CalledForLater(a.children, b.signals[i], b, c);
      } else {
        CalledForAncestor(a.children, b.children, c.signals[i], c);
      }
    }
    hide Descendant, CalledFor;
  }

  lemma DescendantChain(a: seq<Child>, b: seq<Child>, c: Child)
    requires Descendant(b, c) && forall k :: 0 <= k < |b| ==> Descendant(a, b[k])
    ensures Descendant(a, c)
  {
    var k :| 0 <= k < |b| && Descends(b[k], c);
    assert Descendant(a, b[k]);
    var i :| 0 <= i < |a| && Descends(a[i], b[k]);
    assert Descends(a[i], c);
  }

  lemma CalledForLater(children: seq<Child>, s: Signal, b: Exec, c: Exec)
    requires CalledFor(children, s, b) && c.options == b.options
    requires (b.stopping ==> c.stopping) && (b.supervisorFailed ==> c.supervisorFailed)
    ensures CalledFor(children, s, c)
  {
    var k :| 0 <= k < |children| && Calls(children[k], s, b);
    assert Calls(children[k], s, c);
  }

  lemma CalledForAncestor(a: seq<Child>, b: seq<Child>, s: Signal, c: Exec)
    requires CalledFor(b, s, c) && forall k :: 0 <= k < |b| ==> Descendant(a, b[k])
    ensures CalledFor(a, s, c)
  {
    var k :| 0 <= k < |b| && Calls(b[k], s, c);
    assert Descendant(a, b[k]);
    var i :| 0 <= i < |a| && Descends(a[i], b[k]);
    assert Calls(a[i], s, c);
  }

  lemma EscalateSends(e: Exec, i: nat, action: Action, now: int)
    requires i < |e.children| && !action.LossKill?
    requires Calls(e.children[i], Signal(e.children[i].jobId, action, now), e)
    ensures Sends(e, Escalate(e, i, action, now))
  {
    ItsOwnChildren(e);
    var e' := Escalate(e, i, action, now);
    assert Calls(e.children[i], e'.signals[|e.signals|], e');
    forall k | 0 <= k < |e'.children| ensures Descendant(e.children, e'.children[k]) {
      assert Descends(e.children[k], e'.children[k]);
    }
    hide Descendant;
  }

  // ---- Sending one signal ----

  lemma SendOrderly(signals: seq<Signal>, s: Signal, grace: int)
    requires Orderly(signals, grace) && !WasSent(signals, s.jobId, s.action) && !WasSent(signals, s.jobId, LossKill)
    requires s.action.Kill? ==> exists at :: Signal(s.jobId, Terminate, at) in signals && s.at - at >= grace
    ensures Orderly(signals + [s], grace)
  {
    var all := signals + [s];
    forall k | 0 <= k < |all| && all[k].action.Kill? ensures Warned(all, k, grace) {
      if k < |signals| {
        assert Warned(signals, k, grace);
        var i :| 0 <= i < k && signals[i].jobId == signals[k].jobId && signals[i].action.Terminate?
                 && signals[k].at - signals[i].at >= grace;
        assert all[i] == signals[i];
      } else {
        var at :| Signal(s.jobId, Terminate, at) in signals && s.at - at >= grace;
        var i :| 0 <= i < |signals| && signals[i] == Signal(s.jobId, Terminate, at);
        assert all[i] == signals[i];
      }
    }
    hide Warned;
  }

  lemma SentAfter(signals: seq<Signal>, s: Signal, id: nat, action: Action)
    ensures WasSent(signals + [s], id, action) <==>
            WasSent(signals, id, action) || (s.jobId == id && s.action == action)
  {
    var all := signals + [s];
    if WasSent(signals, id, action) {
      var i :| 0 <= i < |signals| && signals[i].jobId == id && signals[i].action == action;
      assert all[i] == signals[i];
    }
    assert all[|signals|] == s;
  }

  lemma EscalateFlags(signals: seq<Signal>, c: Child, s: Signal, c': Child)
    requires FlagsOk(signals, c) && (s.jobId == c.jobId ==> !s.action.LossKill?)
    requires if s.jobId == c.jobId then
               if s.action.Terminate? then c' == c.(timedOut := true, terminated := s.at) && !c.timedOut
               else c' == c.(sentKill := true)
             else c' == c
    ensures FlagsOk(signals + [s], c')
  {
    SentAfter(signals, s, c.jobId, Terminate);
    SentAfter(signals, s, c.jobId, Kill);
    SentAfter(signals, s, c.jobId, LossKill);
    hide WasSent;
    assert forall x :: x in signals ==> x in signals + [s];
    assert s in signals + [s];
  }

  lemma EscalateKeeps(e: Exec, i: nat, action: Action, now: int)
    requires SignalsInv(e) && i < |e.children| && !action.LossKill?
    requires var c := e.children[i];
             if action.Terminate? then Calls(c, Signal(c.jobId, action, now), e)
             else c.timedOut && !c.sentKill && now - c.terminated >= e.options.terminateGrace
    ensures SignalsInv(Escalate(e, i, action, now)) && Sends(e, Escalate(e, i, action, now))
  {
    var c, e' := e.children[i], Escalate(e, i, action, now);
    var s := Signal(c.jobId, action, now);
    assert FlagsOk(e.signals, c);
    EscalateSends(e, i, action, now);
    hide Sends;
    SendOrderly(e.signals, s, e.options.terminateGrace);
    hide Orderly;
    forall k | 0 <= k < |e'.children| ensures FlagsOk(e'.signals, e'.children[k]) {
      hide FlagsOk;
      EscalateFlags(e.signals, e.children[k], s, e'.children[k]);
    }
    hide FlagsOk;
  }

  lemma {:induction false} ExpireFromKeeps(e: Exec, i: nat, now: int, gone: bool)
    requires SignalsInv(e)
    ensures SignalsInv(ExpireFrom(e, i, now, gone)) && Sends(e, ExpireFrom(e, i, now, gone))
    decreases |e.children| - i
  {
    hide SignalsInv, FailSupervisor, Sends;
    SendsNothing(e, e);
    if i < |e.children| {
      if e.children[i].pid < 0 && now - e.children[i].started >= e.options.responseTimeout {
        FailKeepsSignals(e, ETIMEDOUT, now, gone);
      } else {
        ExpireChildKeeps(e, i, now);
        hide ExpireChild;
        ExpireFromKeeps(ExpireChild(e, i, now), i + 1, now, gone);
        SendsChain(e, ExpireChild(e, i, now), ExpireFrom(e, i, now, gone));
      }
    }
  }

  lemma ExpireChildKeeps(e: Exec, i: nat, now: int)
    requires SignalsInv(e) && i < |e.children|
    ensures SignalsInv(ExpireChild(e, i, now)) && Sends(e, ExpireChild(e, i, now))
  {
    hide SignalsInv, Escalate, Sends;
    SendsNothing(e, e);
    var c := e.children[i];
    if c.pid > 0 && !c.timedOut && (e.stopping || now - c.started >= e.options.timeout) {
      EscalateKeeps(e, i, Terminate, now);
    } else if c.timedOut && !c.sentKill && now - c.terminated >= e.options.terminateGrace {
      EscalateKeeps(e, i, Kill, now);
    }
  }

  lemma {:induction false} TerminateFromKeeps(e: Exec, i: nat, now: int)
    requires SignalsInv(e) && e.stopping
    ensures SignalsInv(TerminateFrom(e, i, now)) && Sends(e, TerminateFrom(e, i, now))
    decreases |e.children| - i
  {
    hide Sends;
    SendsNothing(e, e);
    if i < |e.children| {
      var c := e.children[i];
      if c.pid > 0 && !c.timedOut {
        var e1 := Escalate(e, i, Terminate, now);
        EscalateKeeps(e, i, Terminate, now);
        assert |e1.children| == |e.children|;
        hide SignalsInv, Escalate;
        TerminateFromKeeps(e1, i + 1, now);
        SendsChain(e, e1, TerminateFrom(e, i, now));
      } else {
        hide SignalsInv, Escalate;
        TerminateFromKeeps(e, i + 1, now);
      }
    }
  }

  // ---- Everything else sends nothing ----

  /** The child is one that `e` had, with the same flags, or a new one with none set. */
  ghost predicate Inherited(e: Exec, c: Child) {
    || (exists i :: 0 <= i < |e.children| && SameFlags(e.children[i], c))
    || (e.nextJobId <= c.jobId && !c.timedOut && !c.sentKill)
  }

  predicate SameFlags(a: Child, b: Child) {
    a.jobId == b.jobId && a.timedOut == b.timedOut && a.sentKill == b.sentKill && a.terminated == b.terminated
  }

  /** `e'` sent no signal and took no child out of the air. */
  ghost predicate Silent(e: Exec, e': Exec) {
    && e'.signals == e.signals && e'.options == e.options && e.nextJobId <= e'.nextJobId
    && (forall i :: 0 <= i < |e'.children| ==> e'.children[i].jobId < e'.nextJobId && Inherited(e, e'.children[i]))
    && (forall i, k :: 0 <= i < k < |e'.children| ==> e'.children[i].jobId != e'.children[k].jobId)
  }

  lemma SilentKeeps(e: Exec, e': Exec)
    requires SignalsInv(e) && Silent(e, e')
    ensures SignalsInv(e')
  {
    hide Orderly;
    forall k | 0 <= k < |e'.children| ensures FlagsOk(e'.signals, e'.children[k]) {
      var c := e'.children[k];
      if exists i :: 0 <= i < |e.children| && SameFlags(e.children[i], c) {
        var i :| 0 <= i < |e.children| && SameFlags(e.children[i], c);
        assert FlagsOk(e.signals, e.children[i]);
      }
    }
  }

  lemma NoChildren(e: Exec, e': Exec)
    requires SignalsInv(e) && e'.signals == e.signals && e'.options == e.options && e'.nextJobId == e.nextJobId
    requires e'.children == [] || e'.children == e.children
    ensures SignalsInv(e')
  {
    hide Orderly, FlagsOk;
  }

  lemma FinishSignals(e: Exec, i: nat, status: WaitStatus, execErrno: int, cause: Cause)
    requires i < |e.children|
    ensures var e' := Finish(e, i, status, execErrno, cause);
            && e'.signals == e.signals && e'.options == e.options && e'.nextJobId == e.nextJobId
            && e'.stopping == e.stopping && e'.supervisorFailed == e.supervisorFailed
            && e'.children == RemoveAt(e.children, i)
  {
    hide RemoveAt, ResultOf, Unsuccessful;
  }

  /** Killing and finishing the first child of a lost supervisor: its last signal, and it is gone. */
  lemma LoseFirstKeeps(e: Exec, failure: int, now: int)
    requires SignalsInv(e) && e.children != [] && e.supervisorFailed
    ensures var e' := Finish(KillLost(e, now), 0, Exited(127), failure, SupervisorLost);
            SignalsInv(e') && Sends(e, e') && |e'.children| == |e.children| - 1 && e'.supervisorFailed
  {
    var c, e1 := e.children[0], KillLost(e, now);
    var e' := Finish(e1, 0, Exited(127), failure, SupervisorLost);
    FinishSignals(e1, 0, Exited(127), failure, SupervisorLost);
    hide Finish;
    assert e'.children == e.children[1..];
    var s := Signal(c.jobId, LossKill, now);
    LoseFirstSends(e, e', s);
    LoseFirstFlags(e, e', s);
    assert FlagsOk(e.signals, c);
    hide Sends;
    if c.pid > 0 {
      SendOrderly(e.signals, s, e.options.terminateGrace);
    }
    hide Orderly, FlagsOk;
  }

  lemma LoseFirstFlags(e: Exec, e': Exec, s: Signal)
    requires SignalsInv(e) && e.children != [] && e'.children == e.children[1..] && s.jobId == e.children[0].jobId
    requires e'.signals == if e.children[0].pid > 0 then e.signals + [s] else e.signals
    ensures forall k :: 0 <= k < |e'.children| ==> FlagsOk(e'.signals, e'.children[k])
  {
    hide Orderly;
    forall k | 0 <= k < |e'.children| ensures FlagsOk(e'.signals, e'.children[k]) {
      assert e'.children[k] == e.children[k + 1] && FlagsOk(e.signals, e.children[k + 1]);
      hide FlagsOk;
      if e.children[0].pid > 0 {
        EscalateFlags(e.signals, e.children[k + 1], s, e.children[k + 1]);
      }
    }
    hide FlagsOk;
  }

  lemma LoseFirstSends(e: Exec, e': Exec, s: Signal)
    requires e.children != [] && e'.children == e.children[1..] && s.jobId == e.children[0].jobId
    requires e'.options == e.options && e'.nextJobId == e.nextJobId && e'.stopping == e.stopping
    requires e.supervisorFailed && e'.supervisorFailed && s.action.LossKill?
    requires e'.signals == if e.children[0].pid > 0 then e.signals + [s] else e.signals
    ensures Sends(e, e')
  {
    ItsOwnChildren(e);
    assert e.children[0].pid > 0 ==> Calls(e.children[0], s, e');
    hide Descendant;
    forall k | 0 <= k < |e'.children| ensures Descendant(e.children, e'.children[k]) {
      assert e'.children[k] == e.children[k + 1];
    }
  }

  lemma {:induction false} LoseAllKeeps(e: Exec, failure: int, now: int)
    requires SignalsInv(e) && e.supervisorFailed
    ensures SignalsInv(FinishAll(e, failure, now)) && Sends(e, FinishAll(e, failure, now))
    decreases |e.children|
  {
    hide SignalsInv, Sends, Finish;
    SendsNothing(e, e);
    if e.children != [] {
      var e' := Finish(KillLost(e, now), 0, Exited(127), failure, SupervisorLost);
      LoseFirstKeeps(e, failure, now);
      LoseAllKeeps(e', failure, now);
      SendsChain(e, e', FinishAll(e', failure, now));
    }
  }

  lemma FailKeepsSignals(e: Exec, error: int, now: int, gone: bool)
    requires SignalsInv(e)
    ensures SignalsInv(FailSupervisor(e, error, now, gone)) && Sends(e, FailSupervisor(e, error, now, gone))
  {
    hide SignalsInv, Sends, FinishAll;
    SendsNothing(e, e);
    if !e.supervisorFailed {
      var failure := if error == 0 then EPIPE else error;
      var e1 := ReapSupervisor(e.(supervisorFailed := true, lastError := failure, connected := false), gone);
      NoChildren(e, e1);
      SendsNothing(e, e1);
      LoseAllKeeps(e1, failure, now);
      var e2 := FinishAll(e1, failure, now);
      SendsChain(e, e1, e2);
      var e3 := e2.(restartAfter := now + e2.options.restartDelay);
      NoChildren(e2, e3);
      SendsNothing(e2, e3);
      SendsChain(e, e2, e3);
    }
  }

  lemma WithdrawUntouched(e: Exec, p: Priority, i: nat, fate: Fate)
    requires i < |Queue(e, p)|
    ensures Untouched(e, Withdraw(e, p, i, fate))
  {
    hide RemoveAt, Unlaunched, WithdrawalError, Mark, Post;
    var job := Queue(e, p)[i];
    var e1 := WithQueue(e, p, RemoveAt(Queue(e, p), i))
      .(coalesced := e.coalesced + if fate.Superseded? then 1 else 0,
        dropped := e.dropped + if fate.Evicted? then 1 else 0,
        completed := e.completed + if fate.LaunchFailed? then 1 else 0,
        failed := e.failed + if fate.LaunchFailed? && fate.error != 0 then 1 else 0);
    RecordUntouched(e1, job, fate, Unlaunched(job.request.argv, WithdrawalError(fate)));
  }

  lemma RecordUntouched(e: Exec, job: Job, fate: Fate, result: HookResult)
    ensures Untouched(e, Post(Mark(e, job.ticket, fate), job, result))
  {
  }

  /** The signals, the limits, the ids and the children are all as they were. */
  predicate Untouched(e: Exec, e': Exec) {
    && e'.signals == e.signals && e'.options == e.options && e'.nextJobId == e.nextJobId && e'.children == e.children
    && e'.stopping == e.stopping && e'.supervisorFailed == e.supervisorFailed
  }

  lemma AdmitUntouched(e: Exec, s: Submission)
    ensures Untouched(e, Enqueue(e, s)) && Untouched(e, Reject(e, s))
  {
  }

  lemma ReplaceUntouched(e: Exec, p: Priority, i: nat, fate: Fate, s: Submission)
    requires i < |Queue(e, p)|
    ensures Untouched(e, Enqueue(Withdraw(e, p, i, fate), s))
  {
    WithdrawUntouched(e, p, i, fate);
    AdmitUntouched(Withdraw(e, p, i, fate), s);
    hide Withdraw, Enqueue;
  }

  lemma SubmitUntouched(e: Exec, s: Submission)
    ensures Untouched(e, Submit(e, s))
  {
    hide Withdraw, First, Enqueue, Reject, Untouched;
    var c, n := First(e.critical, SameKey(s.coalesceKey)), First(e.normal, SameKey(s.coalesceKey));
    var v := First(e.normal, Coalescible);
    AdmitUntouched(e, s);
    if c < |e.critical| {
      ReplaceUntouched(e, Critical, c, Superseded, s);
    }
    if n < |e.normal| {
      ReplaceUntouched(e, Normal, n, Superseded, s);
    }
    if v < |e.normal| {
      ReplaceUntouched(e, Normal, v, Evicted, s);
    }
  }

  /** Whatever `e'` has sent beyond `e` was called for by children of `e`. */
  ghost predicate ToRunning(e: Exec, e': Exec) {
    && e.signals <= e'.signals
    && forall i :: |e.signals| <= i < |e'.signals| ==> CalledFor(e.children, e'.signals[i], e')
  }

  lemma NoSignals(e: Exec, e': Exec)
    requires e'.signals == e.signals
    ensures ToRunning(e, e')
  {
  }

  lemma SendsToRunning(e: Exec, e': Exec)
    requires Sends(e, e')
    ensures ToRunning(e, e')
  {
  }

  lemma StartSilent(e: Exec, p: Priority, i: nat, now: int)
    requires SignalsInv(e) && i < |Queue(e, p)|
    ensures Silent(e, Start(e, p, i, now))
  {
    hide RemoveAt, Orderly, FlagsOk;
    var e' := Start(e, p, i, now);
    forall k | 0 <= k < |e'.children| ensures Inherited(e, e'.children[k]) {
      if k < |e.children| {
        assert SameFlags(e.children[k], e'.children[k]);
      }
    }
    hide Inherited;
  }

  lemma LaunchKeepsSignals(e: Exec, p: Priority, i: nat, outcome: SendOutcome, now: int, gone: bool)
    requires SignalsInv(e) && i < |Queue(e, p)|
    ensures SignalsInv(Launch(e, p, i, outcome, now, gone)) && ToRunning(e, Launch(e, p, i, outcome, now, gone))
  {
    hide SignalsInv, Start, Withdraw, FailSupervisor, Fits, Sends, ToRunning;
    var argv := Queue(e, p)[i].request.argv;
    if !Fits(argv) {
      WithdrawUntouched(e, p, i, LaunchFailed(E2BIG));
      NoChildren(e, Withdraw(e, p, i, LaunchFailed(E2BIG)));
      NoSignals(e, Withdraw(e, p, i, LaunchFailed(E2BIG)));
    } else {
      match outcome
      case Sent =>
        StartSilent(e, p, i, now);
        SilentKeeps(e, Start(e, p, i, now));
        NoSignals(e, Start(e, p, i, now));
      case WouldBlock =>
        NoChildren(e, Requeue(e, p, i));
        NoSignals(e, Requeue(e, p, i));
      case SendFailed(error) =>
        var failure := if error == 0 then EPIPE else error;
        var e1 := Withdraw(e, p, i, LaunchFailed(failure));
        WithdrawUntouched(e, p, i, LaunchFailed(failure));
        NoChildren(e, e1);
        SendsNothing(e, e1);
        FailKeepsSignals(e1, failure, now, gone);
        SendsChain(e, e1, FailSupervisor(e1, failure, now, gone));
        SendsToRunning(e, FailSupervisor(e1, failure, now, gone));
    }
  }

  lemma SetPidSilent(e: Exec, i: nat, pid: int)
    requires SignalsInv(e) && i < |e.children|
    ensures Silent(e, SetPid(e, i, pid))
  {
    hide Orderly, FlagsOk;
    var e' := SetPid(e, i, pid);
    forall k | 0 <= k < |e'.children| ensures Inherited(e, e'.children[k]) {
      assert SameFlags(e.children[k], e'.children[k]);
    }
    hide Inherited;
  }

  lemma FinishSilent(e: Exec, i: nat, status: WaitStatus, execErrno: int, cause: Cause)
    requires SignalsInv(e) && i < |e.children|
    ensures Silent(e, Finish(e, i, status, execErrno, cause))
  {
    FinishSignals(e, i, status, execErrno, cause);
    hide Orderly, FlagsOk, Finish;
    var e' := Finish(e, i, status, execErrno, cause);
    forall k | 0 <= k < |e'.children| ensures Inherited(e, e'.children[k]) {
      assert SameFlags(e.children[if k < i then k else k + 1], e'.children[k]);
    }
    hide Inherited;
  }

  lemma ReceiveKeepsSignals(e: Exec, r: Response)
    requires SignalsInv(e)
    ensures SignalsInv(Receive(e, r)) && Receive(e, r).signals == e.signals
  {
    hide SignalsInv, Finish, SetPid, IndexOf;
    var i := IndexOf(e.children, r.jobId);
    if i < |e.children| {
      SetPidSilent(e, i, r.pid);
      SilentKeeps(e, SetPid(e, i, r.pid));
      if r.Finished? {
        var e1 := if e.children[i].pid < 0 then SetPid(e, i, r.pid) else e;
        assert |e1.children| == |e.children| by { SetPidAt(e, i, r.pid); }
        FinishSilent(e1, i, r.status, r.execErrno, OwnResponse);
        SilentKeeps(e1, Finish(e1, i, r.status, r.execErrno, OwnResponse));
      }
    }
  }

  lemma StopKeepsSignals(e: Exec, now: int)
    requires SignalsInv(e)
    ensures SignalsInv(HookState.Stop(e, now)) && Sends(e, HookState.Stop(e, now))
  {
    var e1 := e.(stopping := true, dropped := e.dropped + PendingCount(e), critical := [], normal := [],
                 ledger := DiscardAll(e.ledger));
    hide SignalsInv, DiscardAll, Sends;
    NoChildren(e, e1);
    SendsNothing(e, e1);
    TerminateFromKeeps(e1, 0, now);
    SendsChain(e, e1, TerminateFrom(e1, 0, now));
  }

  // ---- Every run ----

  lemma StepKeepsSignals(w: World, step: Step)
    requires SignalsInv(w.exec)
    ensures SignalsInv(Next(w, step).exec) && ToRunning(w.exec, Next(w, step).exec)
  {
    hide SignalsInv, Submit, HookState.Stop, Launch, Receive, FailSupervisor, ExpireFrom, ReadRequest;
    hide WellFormedArgv, Choose, MayLaunch, Fits, Sends, ToRunning;
    var e := w.exec;
    NoSignals(e, e);
    match step
    case SubmitStep(s) =>
      SubmitUntouched(e, s);
      NoChildren(e, Submit(e, s));
      NoSignals(e, Submit(e, s));
    case StopStep(now) =>
      StopKeepsSignals(e, now);
      SendsToRunning(e, HookState.Stop(e, now));
    case LaunchStep(outcome, now, gone) =>
      if LaunchEnabled(w) {
        LaunchKeepsSignals(e, Choose(e).priority, Choose(e).index, outcome, now, gone);
      }
    case ReceiveStep =>
      if w.responses != [] {
        ReceiveKeepsSignals(e, w.responses[0]);
        NoSignals(e, Receive(e, w.responses[0]));
      }
    case BreakStep(error, now, gone) =>
      FailKeepsSignals(e, error, now, gone);
      SendsToRunning(e, FailSupervisor(e, error, now, gone));
    case ExpireStep(now, gone) =>
      ExpireFromKeeps(e, 0, now, gone);
      SendsToRunning(e, ExpireFrom(e, 0, now, gone));
    case SupervisorReads(fork, heard) =>
      if w.supervisor.alive && w.requests != [] && w.waiting != [] {
        ReadKeepsExec(w, fork, heard);
      }
    case _ =>
      NoChildren(e, Next(w, step).exec);
      NoSignals(e, Next(w, step).exec);
  }

  lemma {:induction false} RunKeepsSignals(w: World, steps: seq<Step>)
    requires SignalsInv(w.exec)
    ensures SignalsInv(Run(w, steps).exec)
    decreases |steps|
  {
    hide SignalsInv, Next;
    if steps != [] {
      StepKeepsSignals(w, steps[0]);
      RunKeepsSignals(Next(w, steps[0]), steps[1..]);
    }
  }

  lemma ReachableKeepsSignals(w: World)
    requires Reachable(w)
    ensures SignalsInv(w.exec)
  {
    hide Run, Next;
    var options, pid, steps :| ValidOptions(options) && w == Run(InitWorld(options, pid), steps);
    RunKeepsSignals(InitWorld(options, pid), steps);
  }

  // ---- Main results ----

  /**
   In every run the executor terminates a job at most once, kills it by escalation at most once and
   at least the grace time after its termination, and kills it for a lost supervisor at most once,
   after which it sends that job nothing. A running child is marked as timed out exactly when its
   termination has been sent.
   */
  lemma EscalationIsOrderly(w: World)
    requires Reachable(w)
    ensures Orderly(w.exec.signals, w.exec.options.terminateGrace)
    ensures forall i :: 0 <= i < |w.exec.children| ==>
              (w.exec.children[i].timedOut <==> WasSent(w.exec.signals, w.exec.children[i].jobId, Terminate))
  {
    ReachableKeepsSignals(w);
  }

  /** A job whose launch is finished in `w` is sent no signal by any continuation. */
  lemma FinishedJobsAreLeftAlone(w: World, steps: seq<Step>, k: nat, i: nat)
    requires Reachable(w) && k < |w.exec.launches| && w.exec.launches[k] < |w.exec.ledger|
    requires w.exec.ledger[w.exec.launches[k]].fate.Done?
    requires |w.exec.signals| <= i < |Run(w, steps).exec.signals|
    ensures Run(w, steps).exec.signals[i].jobId != k + 1
  {
    ReachableKeeps(w);
    ReachableKeepsSignals(w);
    hide Reachable, WorldInv, SignalsInv, Run;
    RunLeavesAlone(w, steps, k, i);
  }

  lemma {:induction false} RunLeavesAlone(w: World, steps: seq<Step>, k: nat, i: nat)
    requires WorldInv(w) && SignalsInv(w.exec) && FinishedLaunch(w.exec, k)
    requires |w.exec.signals| <= i < |Run(w, steps).exec.signals|
    ensures Run(w, steps).exec.signals[i].jobId != k + 1
    decreases |steps|
  {
    hide WorldInv, SignalsInv, Next, HasChild, CalledFor;
    if steps != [] {
      var w' := Next(w, steps[0]);
      StepKeeps(w, steps[0]);
      StepGrows(w, steps[0]);
      StepKeepsSignals(w, steps[0]);
      if i < |w'.exec.signals| {
        LaterSignals(w', steps[1..]);
        NotAChild(w, k);
        CalledForChild(w.exec.children, w'.exec.signals[i], w'.exec);
      } else {
        StaysFinished(w.exec, w'.exec, k);
        RunLeavesAlone(w', steps[1..], k, i);
      }
    }
  }

  ghost predicate FinishedLaunch(e: Exec, k: nat) {
    k < |e.launches| && e.launches[k] < |e.ledger| && e.ledger[e.launches[k]].fate.Done?
  }

  lemma StaysFinished(e: Exec, e': Exec, k: nat)
    requires FinishedLaunch(e, k) && HistoryGrows(e, e')
    ensures FinishedLaunch(e', k)
  {
    assert e'.launches[k] == e.launches[k];
  }

  lemma CalledForChild(children: seq<Child>, s: Signal, e': Exec)
    requires CalledFor(children, s, e')
    ensures HasChild(children, s.jobId)
  {
  }

  lemma NotAChild(w: World, k: nat)
    requires WorldInv(w) && FinishedLaunch(w.exec, k)
    ensures !HasChild(w.exec.children, k + 1)
  {
    assert ChildrenOk(w.exec) && LaunchesOk(w.exec);
    hide WorldInv, ChildrenOk, LaunchesOk, HasChild;
    LaunchIsRunningOrDone(w.exec, k);
  }

  lemma {:induction false} LaterSignals(w: World, steps: seq<Step>)
    requires SignalsInv(w.exec)
    ensures w.exec.signals <= Run(w, steps).exec.signals
    decreases |steps|
  {
    hide SignalsInv, Next, CalledFor;
    if steps != [] {
      StepKeepsSignals(w, steps[0]);
      LaterSignals(Next(w, steps[0]), steps[1..]);
    }
  }
}
