/**
 Small facts about the state functions that the executor's loops rest on: how long a table stays,
 how far a job id can have advanced, and which state a helper method has reached.
 */
module HookExecutorFacts {
  import HookCodec
  import HookInvariants
  import opened HookState

  lemma QueuedPriority(e: Exec, p: Priority, i: nat)
    requires HookInvariants.Inv(e) && i < |Queue(e, p)|
    ensures Queue(e, p)[i].request.priority == p
  {
    HookInvariants.QueuedJob(e, p, i);
  }

  /** Completing the job just taken from its queue with an error amounts to withdrawing it. */
  lemma FailedLaunchIs(e: Exec, p: Priority, i: nat, error: int)
    requires i < |Queue(e, p)|
    ensures var job, taken := Queue(e, p)[i], WithQueue(e, p, RemoveAt(Queue(e, p), i));
            Post(Mark(taken.(completed := taken.completed + 1, failed := taken.failed + if error != 0 then 1 else 0),
                      job.ticket, LaunchFailed(error)),
                 job, Unlaunched(job.request.argv, error))
            == Withdraw(e, p, i, LaunchFailed(error))
  {
    hide Post, Mark, RemoveAt, Unlaunched;
  }

  lemma StartIs(e: Exec, p: Priority, i: nat, now: int)
    requires i < |Queue(e, p)|
    ensures var job, taken := Queue(e, p)[i], WithQueue(e, p, RemoveAt(Queue(e, p), i));
            Mark(taken.(nextJobId := taken.nextJobId + 1,
                        children := taken.children + [Child(taken.nextJobId, -1, now, 0, false, false, job)],
                        launches := taken.launches + [job.ticket]),
                 job.ticket, Running(taken.nextJobId))
            == Start(e, p, i, now)
  {
    hide Mark, RemoveAt;
  }

  lemma KilledStays(e: Exec, now: int)
    requires e.children != []
    ensures KillLost(e, now).children == e.children
  {
  }

  lemma {:induction false} IndexIsUnique(children: seq<Child>, jobId: nat, i: nat)
    requires i <= |children|
    requires forall k :: 0 <= k < i ==> children[k].jobId != jobId
    requires i < |children| ==> children[i].jobId == jobId
    ensures i == IndexOf(children, jobId)
  {
  }

  lemma ReceiveStaysConnected(e: Exec, response: Response)
    ensures Receive(e, response).connected == e.connected
  {
    hide IndexOf;
  }

  lemma {:induction false} FinishAllNumbers(e: Exec, failure: int, now: int)
    ensures FinishAll(e, failure, now).nextJobId == e.nextJobId
    decreases |e.children|
  {
    if e.children != [] {
      var e1 := KillLost(e, now);
      FinishNumbers(e1, Exited(127), failure);
      HookInvariants.FinishShrinks(e1, Exited(127), failure, SupervisorLost);
      hide Finish;
      FinishAllNumbers(Finish(e1, 0, Exited(127), failure, SupervisorLost), failure, now);
    }
  }

  lemma FinishNumbers(e: Exec, status: WaitStatus, failure: int)
    requires e.children != []
    ensures Finish(e, 0, status, failure, SupervisorLost).nextJobId == e.nextJobId
  {
  }

  lemma FailNumbers(e: Exec, error: int, now: int, gone: bool)
    ensures FailSupervisor(e, error, now, gone).nextJobId == e.nextJobId
  {
    hide FinishAll;
    var failure := if error == 0 then EPIPE else error;
    var e1 := ReapSupervisor(e.(supervisorFailed := true, lastError := failure, connected := false), gone);
    FinishAllNumbers(e1, failure, now);
  }

  lemma LaunchNumbers(e: Exec, outcome: SendOutcome, now: int, gone: bool)
    requires Choose(e).Chosen?
    ensures var c := Choose(e);
            Launch(e, c.priority, c.index, outcome, now, gone).nextJobId <= e.nextJobId + 1
  {
    var c := Choose(e);
    assert c.index < |Queue(e, c.priority)|;
    hide Choose, FailSupervisor, HookCodec.Fits, Withdraw, Start, Requeue;
    PartNumbers(e, c.priority, c.index, now);
    WithdrawNumbers(e, c.priority, c.index, E2BIG);
    if outcome.SendFailed? {
      var failure := if outcome.error == 0 then EPIPE else outcome.error;
      WithdrawNumbers(e, c.priority, c.index, failure);
      FailNumbers(Withdraw(e, c.priority, c.index, LaunchFailed(failure)), failure, now, gone);
    }
  }

  lemma PartNumbers(e: Exec, p: Priority, i: nat, now: int)
    requires i < |Queue(e, p)|
    ensures Start(e, p, i, now).nextJobId == e.nextJobId + 1 && Requeue(e, p, i).nextJobId == e.nextJobId
  {
    hide RemoveAt;
  }

  lemma WithdrawNumbers(e: Exec, p: Priority, i: nat, error: int)
    requires i < |Queue(e, p)|
    ensures Withdraw(e, p, i, LaunchFailed(error)).nextJobId == e.nextJobId
  {
    hide RemoveAt;
  }

  lemma RestartNumbers(e: Exec, spawn: Spawn, now: int)
    ensures Restart(e, spawn, now).nextJobId == e.nextJobId
  {
  }
}
