/** What becomes of a submission, of the jobs pending when it comes, and of all of them when the worker is to stop. */
module HookSubmissions {
  import opened HookState
  import opened HookLedger
  import opened HookInvariants
  import opened HookProtocol
  import opened HookChannel
  import opened HookTheorems
  import S = HookScheduling

  // ---- The four outcomes ----

  /** The newcomer stands last in its own queue; the queues were `critical` and `normal` before. */
  predicate Queued(e': Exec, critical: seq<Job>, normal: seq<Job>, job: Job) {
    match job.request.priority
    case Critical => e'.critical == critical + [job] && e'.normal == normal
    case Normal => e'.normal == normal + [job] && e'.critical == critical
  }

  predicate Refused(e: Exec, e': Exec, s: Submission) {
    e' == e.(submitted := e.submitted + 1, dropped := e.dropped + 1,
             ledger := e.ledger + [Entry(Job(e.submitted, s), Rejected)])
  }

  predicate Joined(e: Exec, e': Exec, s: Submission) {
    var job := Job(e.submitted, s);
    && Queued(e', e.critical, e.normal, job)
    && e' == e.(critical := e'.critical, normal := e'.normal, submitted := e.submitted + 1,
                ledger := e.ledger + [Entry(job, Pending)])
  }

  /** Job `i` of queue `p` made room with the given fate and its cancellation was queued. */
  predicate Replaced(e: Exec, e': Exec, p: Priority, i: nat, fate: Fate, s: Submission)
    requires i < |S.Line(e, p)|
  {
    var victim, job := S.Line(e, p)[i], Job(e.submitted, s);
    var left := S.Line(e, p)[..i] + S.Line(e, p)[i + 1..];
    && victim.ticket < |e.ledger|
    && e'.ledger == e.ledger[victim.ticket := Entry(e.ledger[victim.ticket].job, fate)] + [Entry(job, Pending)]
    && e'.submitted == e.submitted + 1
    && (match p
        case Critical => Queued(e', left, e.normal, job)
        case Normal => Queued(e', e.critical, left, job))
    && e'.posted == (if victim.request.hasCallback then
                       e.posted + [Delivery(victim.ticket, HookResult(victim.request.argv, -1, -1, 0, 125, false))]
                     else e.posted)
    && e'.children == e.children
  }

  predicate SameKeyAt(jobs: seq<Job>, key: string, i: nat) {
    i < |jobs| && jobs[i].request.coalesceKey == key
  }

  /** A pending job of either class has the submission's coalesce key. */
  ghost predicate KeyIsPending(e: Exec, key: string) {
    key != "" && ((exists i :: SameKeyAt(e.critical, key, i)) || (exists i :: SameKeyAt(e.normal, key, i)))
  }

  /** The oldest pending normal job with a coalesce key. */
  predicate OldestCoalescible(normal: seq<Job>, i: nat) {
    && i < |normal| && normal[i].request.coalesceKey != ""
    && forall k :: 0 <= k < i ==> normal[k].request.coalesceKey == ""
  }

  // ---- The searches ----

  lemma FindsKey(jobs: seq<Job>, key: string)
    ensures var i := First(jobs, SameKey(key));
            (i < |jobs| ==> SameKeyAt(jobs, key, i)) && (i == |jobs| ==> forall k :: !SameKeyAt(jobs, key, k))
  {
    hide First;
    forall k: nat | First(jobs, SameKey(key)) == |jobs| ensures !SameKeyAt(jobs, key, k) {
      assert k < |jobs| ==> !Matches(SameKey(key), jobs[k]);
    }
  }

  lemma FindsCoalescible(normal: seq<Job>)
    ensures var i := First(normal, Coalescible);
            && (i < |normal| ==> OldestCoalescible(normal, i))
            && (i == |normal| ==> forall k :: !OldestCoalescible(normal, k))
  {
    hide First;
    var i := First(normal, Coalescible);
    forall k | 0 <= k < i ensures normal[k].request.coalesceKey == "" {
      assert !Matches(Coalescible, normal[k]);
    }
  }

  lemma EnqueueJoins(e: Exec, s: Submission)
    ensures Joined(e, Enqueue(e, s), s)
  {
  }

  lemma WithdrawReplaces(e: Exec, p: Priority, i: nat, fate: Fate, s: Submission)
    requires i < |Queue(e, p)| && Queue(e, p)[i].ticket < |e.ledger| && (fate.Superseded? || fate.Evicted?)
    ensures i < |S.Line(e, p)| && Replaced(e, Enqueue(Withdraw(e, p, i, fate), s), p, i, fate, s)
  {
  }

  /**
   In every reachable world a submission with a usable command line is refused if the worker is to
   stop; else it replaces the pending job with its coalesce key, of either class, if there is one; else
   it joins if there is room; else, if critical, it evicts the oldest normal job that has a coalesce
   key; else it is refused.
   */
  lemma SubmissionFate(w: World, s: Submission)
    requires Reachable(w) && WellFormedArgv(s.argv)
    ensures var e, e' := w.exec, Next(w, SubmitStep(s)).exec;
            if e.stopping then Refused(e, e', s)
            else if KeyIsPending(e, s.coalesceKey) then
              || (exists i :: SameKeyAt(e.critical, s.coalesceKey, i) && Replaced(e, e', Critical, i, Superseded, s))
              || (exists i :: SameKeyAt(e.normal, s.coalesceKey, i) && Replaced(e, e', Normal, i, Superseded, s))
            else if |e.critical| + |e.normal| < e.options.maxPending then Joined(e, e', s)
            else if s.priority.Critical? && exists i :: OldestCoalescible(e.normal, i) then
              exists i :: OldestCoalescible(e.normal, i) && Replaced(e, e', Normal, i, Evicted, s)
            else Refused(e, e', s)
  {
    hide Reachable, WorldInv, Submit, Next, Replaced, Joined, Refused, SameKeyAt, OldestCoalescible, KeyIsPending;
    ReachableKeeps(w);
    SubmitStepIs(w, s);
    InvOf(w);
    SubmitDecides(w.exec, s);
  }

  lemma SubmitDecides(e: Exec, s: Submission)
    requires Inv(e)
    ensures var e' := Submit(e, s);
            if e.stopping then Refused(e, e', s)
            else if KeyIsPending(e, s.coalesceKey) then
              || (exists i :: SameKeyAt(e.critical, s.coalesceKey, i) && Replaced(e, e', Critical, i, Superseded, s))
              || (exists i :: SameKeyAt(e.normal, s.coalesceKey, i) && Replaced(e, e', Normal, i, Superseded, s))
            else if |e.critical| + |e.normal| < e.options.maxPending then Joined(e, e', s)
            else if s.priority.Critical? && exists i :: OldestCoalescible(e.normal, i) then
              exists i :: OldestCoalescible(e.normal, i) && Replaced(e, e', Normal, i, Evicted, s)
            else Refused(e, e', s)
  {
    hide Inv, First, Enqueue, Reject, Withdraw, Replaced, Joined, Refused, SameKeyAt, OldestCoalescible;
    var c, n := First(e.critical, SameKey(s.coalesceKey)), First(e.normal, SameKey(s.coalesceKey));
    var v := First(e.normal, Coalescible);
    FindsKey(e.critical, s.coalesceKey);
    FindsKey(e.normal, s.coalesceKey);
    if e.stopping {
      RejectRefuses(e, s);
    } else if s.coalesceKey != "" && c < |e.critical| {
      CandidateFits(e, Critical, c, Superseded, s);
    } else if s.coalesceKey != "" && n < |e.normal| {
      CandidateFits(e, Normal, n, Superseded, s);
    } else if PendingCount(e) < e.options.maxPending {
      EnqueueJoins(e, s);
    } else {
      FindsCoalescible(e.normal);
      RejectRefuses(e, s);
      if v < |e.normal| {
        CandidateFits(e, Normal, v, Evicted, s);
      }
    }
  }

  lemma SubmitStepIs(w: World, s: Submission)
    requires WellFormedArgv(s.argv)
    ensures Next(w, SubmitStep(s)).exec == Submit(w.exec, s)
  {
    hide Submit;
  }

  lemma RejectRefuses(e: Exec, s: Submission)
    ensures Refused(e, Reject(e, s), s)
  {
  }

  lemma CandidateFits(e: Exec, p: Priority, i: nat, fate: Fate, s: Submission)
    requires Inv(e) && i < |Queue(e, p)| && (fate.Superseded? || fate.Evicted?)
    ensures i < |S.Line(e, p)| && Replaced(e, Enqueue(Withdraw(e, p, i, fate), s), p, i, fate, s)
  {
    QueuedJob(e, p, i);
    hide Inv;
    WithdrawReplaces(e, p, i, fate, s);
    hide Enqueue, Withdraw, Replaced;
  }

  // ---- Stopping ----

  /** The terminations a stop owes to `children`. */
  function Terminations(children: seq<Child>, now: int): seq<Signal> {
    if children == [] then []
    else (if children[0].pid > 0 && !children[0].timedOut then [Signal(children[0].jobId, Terminate, now)] else [])
         + Terminations(children[1..], now)
  }

  lemma {:induction false} OwedTermination(children: seq<Child>, now: int, s: Signal)
    ensures s in Terminations(children, now) <==>
            exists i :: 0 <= i < |children| && children[i].pid > 0 && !children[i].timedOut
                        && s == Signal(children[i].jobId, Terminate, now)
  {
    if children != [] {
      OwedTermination(children[1..], now, s);
      if exists i :: 0 <= i < |children| && children[i].pid > 0 && !children[i].timedOut
                     && s == Signal(children[i].jobId, Terminate, now) {
        var i :| 0 <= i < |children| && children[i].pid > 0 && !children[i].timedOut
                 && s == Signal(children[i].jobId, Terminate, now);
        assert i > 0 ==> children[i] == children[1..][i - 1];
      }
    }
  }

  lemma TerminateOne(e: Exec, i: nat, now: int)
    requires i < |e.children|
    ensures var c := e.children[i];
            var e' := if c.pid > 0 && !c.timedOut then Escalate(e, i, Terminate, now) else e;
            && TerminateFrom(e, i, now) == TerminateFrom(e', i + 1, now)
            && e' == e.(children := e'.children, signals := e'.signals) && |e'.children| == |e.children|
            && e'.signals == e.signals + Terminations([c], now) && e'.children[i + 1..] == e.children[i + 1..]
  {
    assert [e.children[i]][1..] == [];
  }

  lemma {:induction false} StopTerminates(e: Exec, i: nat, now: int)
    requires i <= |e.children|
    ensures var e' := TerminateFrom(e, i, now);
            && e' == e.(children := e'.children, signals := e'.signals) && |e'.children| == |e.children|
            && e'.signals == e.signals + Terminations(e.children[i..], now)
    decreases |e.children| - i
  {
    if i == |e.children| {
      assert e.children[i..] == [];
    } else {
      hide TerminateFrom, Escalate;
      var c := e.children[i];
      var e1 := if c.pid > 0 && !c.timedOut then Escalate(e, i, Terminate, now) else e;
      TerminateOne(e, i, now);
      StopTerminates(e1, i + 1, now);
      assert e.children[i..][0] == c && e.children[i..][1..] == e.children[i + 1..];
      assert [c][1..] == [];
    }
  }

  /**
   To stop, the executor discards every pending job without a callback, leaves every other entry and
   every running job in place, and terminates exactly the running jobs whose pid is known and that were
   not terminated before.
   */
  lemma StopIs(e: Exec, now: int)
    ensures var e' := HookState.Stop(e, now);
            && e'.stopping && e'.critical == [] && e'.normal == [] && |e'.children| == |e.children|
            && e'.posted == e.posted && e'.completions == e.completions
            && |e'.ledger| == |e.ledger|
            && (forall t :: 0 <= t < |e.ledger| ==>
                  e'.ledger[t] == if e.ledger[t].fate.Pending? then Entry(e.ledger[t].job, Discarded) else e.ledger[t])
            && e.signals <= e'.signals
            && (forall s :: s in e'.signals[|e.signals|..] <==>
                  exists i :: 0 <= i < |e.children| && e.children[i].pid > 0 && !e.children[i].timedOut
                              && s == Signal(e.children[i].jobId, Terminate, now))
  {
    var e1 := e.(stopping := true, dropped := e.dropped + PendingCount(e), critical := [], normal := [],
                 ledger := DiscardAll(e.ledger));
    StopTerminates(e1, 0, now);
    hide TerminateFrom, DiscardAll;
    assert e1.children[0..] == e.children;
    hide Terminations;
    var e' := TerminateFrom(e1, 0, now);
    assert e'.signals[|e.signals|..] == Terminations(e.children, now);
    forall s ensures s in Terminations(e.children, now) <==>
                     exists i :: 0 <= i < |e.children| && e.children[i].pid > 0 && !e.children[i].timedOut
                                 && s == Signal(e.children[i].jobId, Terminate, now)
    {
      OwedTermination(e.children, now, s);
    }
  }

  // ---- Coming back ----

  /**
   After a loss at `lost` a new supervisor can be had exactly from the restart delay on, and after a
   failed attempt at `tried` exactly from the delay after that. It is counted once, and finds the
   queues as they were and no job in flight.
   */
  lemma RestartsAfterDelay(w: World, error: int, lost: int, gone: bool, pid: nat, tried: int, failure: int, now: int)
    requires w.exec.connected && !w.exec.supervisorFailed && !w.exited && !w.exec.stopping && pid > 0
    ensures var delay := w.exec.options.restartDelay;
            var down := Next(Next(w, BreakStep(error, lost, gone)), ReapStep(true));
            var up := Next(down, RestartStep(Spawned(pid), now)).exec;
            && !down.exec.connected && (up.connected <==> now >= lost + delay)
            && (up.connected ==>
                  && up.restarts == w.exec.restarts + 1 && !up.supervisorFailed && up.supervisorPid == pid
                  && up.critical == w.exec.critical && up.normal == w.exec.normal && up.children == [])
            && (tried >= lost + delay ==>
                  var again := Next(down, RestartStep(SpawnFailed(failure), tried));
                  Next(again, RestartStep(Spawned(pid), now)).exec.connected <==> now >= tried + delay)
  {
    S.FailLines(w.exec, error, lost, gone);
    FailOptions(w.exec, error, lost, gone);
    hide FailSupervisor;
  }

  lemma FailOptions(e: Exec, error: int, now: int, gone: bool)
    requires !e.supervisorFailed
    ensures var e' := FailSupervisor(e, error, now, gone); e'.options == e.options && e'.stopping == e.stopping
  {
    var failure := if error == 0 then EPIPE else error;
    S.FinishAllLines(ReapSupervisor(e.(supervisorFailed := true, lastError := failure, connected := false), gone),
                     failure, now);
    hide FinishAll;
  }

  // ---- Delivering and leaving ----

  /** In every reachable world the next callback delivered is the oldest that was not, and it alone. */
  lemma CallbacksComeInOrder(w: World)
    requires Reachable(w) && w.exec.completions != []
    ensures var e, e' := w.exec, Next(w, DeliverStep).exec;
            && |e.completions| <= |e.posted| && e.completions[0] == e.posted[|e.posted| - |e.completions|]
            && e' == e.(completions := e.completions[1..])
            && |e'.completions| == |e.completions| - 1
  {
    hide Reachable, WorldInv, Inv;
    ReachableKeeps(w);
    InvOf(w);
    UndeliveredAreNewest(w.exec);
  }

  lemma UndeliveredAreNewest(e: Exec)
    requires Inv(e)
    ensures Suffix(e.completions, e.posted)
  {
    assert CallbacksOk(e);
    hide Inv;
  }

  /** The worker leaves its loop exactly when it is to stop and nothing is pending, running or undelivered. */
  lemma LeavesExactly(w: World)
    requires !w.exited
    ensures Next(w, ExitStep).exited <==>
            && w.exec.stopping && w.exec.critical == [] && w.exec.normal == []
            && w.exec.children == [] && w.exec.completions == []
  {
  }
}
