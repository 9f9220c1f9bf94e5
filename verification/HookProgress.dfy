/**
 How the history of the hook executor grows: what a critical section may add and never alters.

 `Advance` relates the executor before and after a section that uses no response of the supervisor.
 Jobs keep their tickets, fates only move towards a final one, launches and callbacks are only
 appended, and no child's pid is learnt. The protocol's invariant about the socket rests on this
 relation alone, so its proof does not depend on what the sections compute.

 One lemma for each section establishes the relation.
 */
module HookProgress {
  import HookCodec
  import opened HookState
  import opened HookLedger
  import opened HookInvariants

  /**
   The life of a ticket: a pending job may come to anything but a rejection, a running job can
   only be finished under its own job id, and every other fate is final.
   */
  ghost predicate LegalFate(before: Fate, after: Fate) {
    || after == before
    || (before.Pending? && !after.Rejected?)
    || (before.Running? && after.Done? && after.finishedId == before.jobId)
  }

  ghost predicate Final(fate: Fate) {
    !fate.Pending? && !fate.Running?
  }

  ghost predicate LedgerGrows(before: seq<Entry>, after: seq<Entry>) {
    && |before| <= |after|
    && forall t :: 0 <= t < |before| ==>
         after[t].job == before[t].job && LegalFate(before[t].fate, after[t].fate)
  }

  /** No job was finished by a response. */
  ghost predicate NoResponseUsed(before: seq<Entry>, after: seq<Entry>) {
    forall t :: 0 <= t < |after| && after[t].fate.Done? && after[t].fate.cause.OwnResponse? ==>
      t < |before| && before[t].fate == after[t].fate
  }

  ghost predicate PidSeen(children: seq<Child>, jobId: nat, pid: int) {
    exists i :: 0 <= i < |children| && children[i].jobId == jobId && children[i].pid == pid
  }

  /** A child's pid is one it already had, or still unknown. */
  ghost predicate PidsKept(before: seq<Child>, after: seq<Child>) {
    forall i :: 0 <= i < |after| ==> after[i].pid == -1 || PidSeen(before, after[i].jobId, after[i].pid)
  }

  /** What every section but the receipt of a response does to the history. */
  ghost predicate Advance(e: Exec, e': Exec) {
    && LedgerGrows(e.ledger, e'.ledger) && NoResponseUsed(e.ledger, e'.ledger)
    && e.launches <= e'.launches && e.posted <= e'.posted
    && PidsKept(e.children, e'.children)
  }

  lemma Stay(e: Exec, e': Exec)
    requires e'.ledger == e.ledger && e'.launches == e.launches && e'.posted == e.posted
    requires e'.children == e.children
    ensures Advance(e, e')
  {
    forall i | 0 <= i < |e'.children| ensures PidSeen(e.children, e'.children[i].jobId, e'.children[i].pid) {
    }
  }

  lemma GrowsTransitive(a: seq<Entry>, b: seq<Entry>, c: seq<Entry>)
    requires LedgerGrows(a, b) && LedgerGrows(b, c)
    ensures LedgerGrows(a, c)
  {
  }

  lemma Chain(a: Exec, b: Exec, c: Exec)
    requires Advance(a, b) && Advance(b, c)
    ensures Advance(a, c)
  {
    GrowsTransitive(a.ledger, b.ledger, c.ledger);
    assert NoResponseUsed(a.ledger, c.ledger) by { hide LegalFate; }
    forall i | 0 <= i < |c.children| && c.children[i].pid != -1
      ensures PidSeen(a.children, c.children[i].jobId, c.children[i].pid) {
      var k :| 0 <= k < |b.children| && b.children[k].jobId == c.children[i].jobId
                                     && b.children[k].pid == c.children[i].pid;
    }
  }

  lemma AppendAdvances(e: Exec, e': Exec, entry: Entry)
    requires e'.ledger == e.ledger + [entry] && !entry.fate.Done?
    requires e'.launches == e.launches && e'.posted == e.posted && e'.children == e.children
    ensures Advance(e, e')
  {
    SameChildren(e.children);
    hide PidsKept;
  }

  lemma MarkAdvances(e: Exec, t: nat, fate: Fate, e': Exec)
    requires t < |e.ledger| && LegalFate(e.ledger[t].fate, fate)
    requires fate.Done? ==> fate.cause.SupervisorLost?
    requires e'.ledger == e.ledger[t := e.ledger[t].(fate := fate)]
    requires e.launches <= e'.launches && e.posted <= e'.posted && PidsKept(e.children, e'.children)
    ensures Advance(e, e')
  {
    hide PidsKept, PidSeen;
  }

  lemma SameChildren(children: seq<Child>)
    ensures PidsKept(children, children)
  {
    forall i | 0 <= i < |children| ensures PidSeen(children, children[i].jobId, children[i].pid) {
    }
  }

  lemma SubmitAdvances(e: Exec, s: Submission)
    requires Inv(e)
    ensures Advance(e, Submit(e, s))
    ensures var l := Submit(e, s).ledger;
            |l| == |e.ledger| + 1 && l[|e.ledger|].job == Job(e.submitted, s)
  {
    hide Core, First, Withdraw, Enqueue, Reject;
    var inCritical, inNormal := First(e.critical, SameKey(s.coalesceKey)), First(e.normal, SameKey(s.coalesceKey));
    var victim := First(e.normal, Coalescible);
    if e.stopping {
      RejectAdvances(e, s);
    } else if s.coalesceKey != "" && inCritical < |e.critical| {
      WithdrawAdvances(e, Critical, inCritical, Superseded);
      ThenEnqueue(e, Withdraw(e, Critical, inCritical, Superseded), s);
    } else if s.coalesceKey != "" && inNormal < |e.normal| {
      WithdrawAdvances(e, Normal, inNormal, Superseded);
      ThenEnqueue(e, Withdraw(e, Normal, inNormal, Superseded), s);
    } else if PendingCount(e) < e.options.maxPending {
      EnqueueAdvances(e, s);
    } else if s.priority.Critical? && victim < |e.normal| {
      WithdrawAdvances(e, Normal, victim, Evicted);
      ThenEnqueue(e, Withdraw(e, Normal, victim, Evicted), s);
    } else {
      RejectAdvances(e, s);
    }
  }

  lemma ThenEnqueue(e: Exec, e': Exec, s: Submission)
    requires Advance(e, e') && |e'.ledger| == |e.ledger| && e'.submitted == e.submitted
    ensures Advance(e, Enqueue(e', s))
    ensures var l := Enqueue(e', s).ledger;
            |l| == |e.ledger| + 1 && l[|e.ledger|].job == Job(e.submitted, s)
  {
    hide Enqueue;
    EnqueueAdvances(e', s);
    Chain(e, e', Enqueue(e', s));
  }

  lemma RejectAdvances(e: Exec, s: Submission)
    ensures Advance(e, Reject(e, s))
    ensures Reject(e, s).ledger == e.ledger + [Entry(Job(e.submitted, s), Rejected)]
  {
    AppendAdvances(e, Reject(e, s), Entry(Job(e.submitted, s), Rejected));
  }

  lemma EnqueueAdvances(e: Exec, s: Submission)
    ensures Advance(e, Enqueue(e, s))
    ensures Enqueue(e, s).ledger == e.ledger + [Entry(Job(e.submitted, s), Pending)]
  {
    AppendAdvances(e, Enqueue(e, s), Entry(Job(e.submitted, s), Pending));
  }

  lemma WithdrawAdvances(e: Exec, p: Priority, i: nat, fate: Fate)
    requires Inv(e) && i < |Queue(e, p)| && Withdrawal(fate)
    ensures Advance(e, Withdraw(e, p, i, fate))
    ensures |Withdraw(e, p, i, fate).ledger| == |e.ledger| && Withdraw(e, p, i, fate).submitted == e.submitted
  {
    QueuedJob(e, p, i);
    hide Core;
    SameChildren(e.children);
    MarkAdvances(e, Queue(e, p)[i].ticket, fate, Withdraw(e, p, i, fate));
  }

  lemma StartAdvances(e: Exec, p: Priority, i: nat, now: int)
    requires Inv(e) && i < |Queue(e, p)|
    ensures Advance(e, Start(e, p, i, now))
    ensures |Start(e, p, i, now).ledger| == |e.ledger|
  {
    QueuedJob(e, p, i);
    hide Core;
    var e' := Start(e, p, i, now);
    SameChildren(e.children);
    assert PidsKept(e.children, e'.children) by {
      assert forall k :: 0 <= k < |e.children| ==> e'.children[k] == e.children[k];
    }
    hide PidsKept;
    MarkAdvances(e, Queue(e, p)[i].ticket, Running(e.nextJobId), e');
  }

  lemma FinishPids(children: seq<Child>, i: nat)
    requires i < |children|
    ensures PidsKept(children, RemoveAt(children, i))
  {
    var r := RemoveAt(children, i);
    forall k | 0 <= k < |r| ensures PidSeen(children, r[k].jobId, r[k].pid) {
      assert r[k] == children[if k < i then k else k + 1];
    }
  }

  lemma FinishAdvances(e: Exec, i: nat, status: WaitStatus, execErrno: int)
    requires Core(e) && i < |e.children|
    ensures Advance(e, Finish(e, i, status, execErrno, SupervisorLost))
    ensures |Finish(e, i, status, execErrno, SupervisorLost).ledger| == |e.ledger|
  {
    RunningChild(e, i);
    hide Core;
    FinishPids(e.children, i);
    hide PidsKept, RemoveAt;
    MarkAdvances(e, e.children[i].job.ticket, DoneFate(e, i, status, execErrno, SupervisorLost),
                 Finish(e, i, status, execErrno, SupervisorLost));
  }

  lemma {:induction false} FinishAllAdvances(e: Exec, failure: int, now: int)
    requires Core(e)
    ensures Advance(e, FinishAll(e, failure, now)) && |FinishAll(e, failure, now).ledger| == |e.ledger|
    decreases |e.children|
  {
    hide Core, Finish, Advance;
    if e.children != [] {
      var e1 := KillLost(e, now);
      FlagsKeep(e, e1);
      Stay(e, e1);
      var e' := Finish(e1, 0, Exited(127), failure, SupervisorLost);
      FinishAdvances(e1, 0, Exited(127), failure);
      FinishKeeps(e1, 0, Exited(127), failure, SupervisorLost);
      FinishShrinks(e1, Exited(127), failure, SupervisorLost);
      FinishAllAdvances(e', failure, now);
      Chain(e, e1, e');
      Chain(e, e', FinishAll(e', failure, now));
    } else {
      Stay(e, e);
    }
  }

  lemma FailAdvances(e: Exec, error: int, now: int, gone: bool)
    requires Core(e)
    ensures var e' := FailSupervisor(e, error, now, gone);
            Advance(e, e') && |e'.ledger| == |e.ledger|
  {
    hide Core, FinishAll;
    if e.supervisorFailed {
      Stay(e, e);
    } else {
      var failure := if error == 0 then EPIPE else error;
      var e1 := ReapSupervisor(e.(supervisorFailed := true, lastError := failure, connected := false), gone);
      FlagsKeep(e, e1);
      Stay(e, e1);
      FinishAllAdvances(e1, failure, now);
      var e2 := FinishAll(e1, failure, now);
      Chain(e, e1, e2);
      Stay(e2, e2.(restartAfter := now + e2.options.restartDelay));
      Chain(e, e2, e2.(restartAfter := now + e2.options.restartDelay));
    }
  }

  lemma LaunchAdvances(e: Exec, outcome: SendOutcome, now: int, gone: bool)
    requires Inv(e) && Choose(e).Chosen?
    ensures var c := Choose(e); var e' := Launch(e, c.priority, c.index, outcome, now, gone);
            Advance(e, e') && |e'.ledger| == |e.ledger|
  {
    var c := Choose(e);
    var p, i := c.priority, c.index;
    assert i < |Queue(e, p)|;
    hide Choose, Core, Withdraw, Start, FailSupervisor;
    if !HookCodec.Fits(Queue(e, p)[i].request.argv) {
      WithdrawAdvances(e, p, i, LaunchFailed(E2BIG));
    } else if outcome.Sent? {
      StartAdvances(e, p, i, now);
    } else if outcome.WouldBlock? {
      Stay(e, Requeue(e, p, i));
    } else {
      var failure := if outcome.error == 0 then EPIPE else outcome.error;
      WithdrawAdvances(e, p, i, LaunchFailed(failure));
      WithdrawKeeps(e, p, i, LaunchFailed(failure));
      FailAdvances(Withdraw(e, p, i, LaunchFailed(failure)), failure, now, gone);
      Chain(e, Withdraw(e, p, i, LaunchFailed(failure)),
            FailSupervisor(Withdraw(e, p, i, LaunchFailed(failure)), failure, now, gone));
    }
  }

  lemma EscalateAdvances(e: Exec, i: nat, action: Action, now: int)
    requires i < |e.children| && !action.LossKill?
    ensures Advance(e, Escalate(e, i, action, now)) && Escalate(e, i, action, now).ledger == e.ledger
    ensures |Escalate(e, i, action, now).children| == |e.children|
  {
    var e' := Escalate(e, i, action, now);
    forall k | 0 <= k < |e'.children| ensures PidSeen(e.children, e'.children[k].jobId, e'.children[k].pid) {
      assert e.children[k].jobId == e'.children[k].jobId && e.children[k].pid == e'.children[k].pid;
    }
  }

  lemma {:induction false} ExpireAdvances(e: Exec, i: nat, now: int, gone: bool)
    requires Inv(e)
    ensures var e' := ExpireFrom(e, i, now, gone);
            Advance(e, e') && |e'.ledger| == |e.ledger|
    decreases |e.children| - i
  {
    hide Core, FailSupervisor, Escalate;
    Stay(e, e);
    if i < |e.children| {
      if e.children[i].pid < 0 && now - e.children[i].started >= e.options.responseTimeout {
        FailAdvances(e, ETIMEDOUT, now, gone);
      } else {
        EscalateAdvances(e, i, Terminate, now);
        EscalateAdvances(e, i, Kill, now);
        EscalateKeeps(e, i, Terminate, now);
        EscalateKeeps(e, i, Kill, now);
        var e' := ExpireChild(e, i, now);
        ExpireAdvances(e', i + 1, now, gone);
        Chain(e, e', ExpireFrom(e', i + 1, now, gone));
      }
    }
  }

  lemma {:induction false} TerminateAdvances(e: Exec, i: nat, now: int)
    ensures Advance(e, TerminateFrom(e, i, now)) && TerminateFrom(e, i, now).ledger == e.ledger
    decreases |e.children| - i
  {
    hide Escalate;
    Stay(e, e);
    if i < |e.children| {
      EscalateAdvances(e, i, Terminate, now);
      var e' := if e.children[i].pid > 0 && !e.children[i].timedOut then Escalate(e, i, Terminate, now) else e;
      TerminateAdvances(e', i + 1, now);
      Chain(e, e', TerminateFrom(e', i + 1, now));
    }
  }

  lemma StopAdvances(e: Exec, now: int)
    ensures Advance(e, Stop(e, now)) && |Stop(e, now).ledger| == |e.ledger|
  {
    hide TerminateFrom;
    var e' := Discard(e);
    SameChildren(e.children);
    assert Advance(e, e') by { hide PidsKept; }
    TerminateAdvances(e', 0, now);
    Chain(e, e', TerminateFrom(e', 0, now));
  }
}
