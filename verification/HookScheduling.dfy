/** Which job a launch takes, what becomes of it, and when the worker stops launching. */
module HookScheduling {
  import opened Bytes
  import opened HookCodec
  import opened HookState
  import opened HookLedger
  import opened HookInvariants
  import HookProgress
  import opened HookProtocol
  import opened HookChannel
  import opened HookTheorems

  // ---- Which job is next ----

  /** A running child holds the serial key of the job. */
  ghost predicate Held(e: Exec, job: Job) {
    job.request.serialKey != "" &&
    exists i :: 0 <= i < |e.children| && e.children[i].job.request.serialKey == job.request.serialKey
  }

  ghost predicate AllHeld(e: Exec, jobs: seq<Job>) {
    forall k :: 0 <= k < |jobs| ==> Held(e, jobs[k])
  }

  /** Everything that comes before the job is held back: a critical one only by its own queue. */
  ghost predicate NextInLine(e: Exec, p: Priority, i: nat) {
    match p
    case Critical => i < |e.critical| && !Held(e, e.critical[i]) && AllHeld(e, e.critical[..i])
    case Normal =>
      i < |e.normal| && !Held(e, e.normal[i]) && AllHeld(e, e.normal[..i]) && AllHeld(e, e.critical)
  }

  lemma HeldIsBlocked(e: Exec, job: Job)
    ensures Held(e, job) <==> !Matches(Runnable(e.children), job)
  {
  }

  lemma FirstIsHeld(e: Exec, queue: seq<Job>)
    ensures var i := First(queue, Runnable(e.children));
            AllHeld(e, queue[..i]) && (i < |queue| ==> !Held(e, queue[i])) && (i == |queue| ==> AllHeld(e, queue))
  {
    hide First, Held, Matches;
    forall job: Job {
      HeldIsBlocked(e, job);
    }
  }

  lemma ChoiceIsNext(e: Exec)
    ensures var c := Choose(e);
            if c.Chosen? then NextInLine(e, c.priority, c.index) else AllHeld(e, e.critical) && AllHeld(e, e.normal)
  {
    FirstIsHeld(e, e.critical);
    FirstIsHeld(e, e.normal);
    hide First, Held, AllHeld;
  }

  // ---- What a launch does with it ----

  function Line(e: Exec, p: Priority): seq<Job> {
    match p
    case Critical => e.critical
    case Normal => e.normal
  }

  function Other(p: Priority): Priority {
    match p
    case Critical => Normal
    case Normal => Critical
  }

  /** The job has left its queue and nothing else has happened to the queues. */
  predicate Left(e: Exec, e': Exec, p: Priority, i: nat)
    requires i < |Line(e, p)|
  {
    Line(e', p) == Line(e, p)[..i] + Line(e, p)[i + 1..] && Line(e', Other(p)) == Line(e, Other(p))
  }

  /** The job is back at the front of its queue and nothing else has happened but a count. */
  predicate PushedBack(e: Exec, e': Exec, p: Priority, i: nat)
    requires i < |Line(e, p)|
  {
    && Line(e', p) == [Line(e, p)[i]] + (Line(e, p)[..i] + Line(e, p)[i + 1..])
    && Line(e', Other(p)) == Line(e, Other(p))
    && e' == e.(critical := e'.critical, normal := e'.normal, backpressure := e.backpressure + 1)
  }

  /** The ledger changed for this job alone. */
  predicate Became(e: Exec, e': Exec, ticket: nat, fate: Fate) {
    ticket < |e.ledger| && e'.ledger == e.ledger[ticket := Entry(e.ledger[ticket].job, fate)]
  }

  /** The four things that can become of an attempt to launch job `i` of queue `p`. */
  predicate Tried(e: Exec, e': Exec, p: Priority, i: nat, outcome: SendOutcome, now: int)
    requires i < |Line(e, p)|
  {
    var job := Line(e, p)[i];
    if !Fits(job.request.argv) then
      Left(e, e', p, i) && Became(e, e', job.ticket, LaunchFailed(7)) && e'.children == e.children
    else match outcome
      case Sent =>
        && Left(e, e', p, i) && Became(e, e', job.ticket, Running(e.nextJobId))
        && e'.children == e.children + [Child(e.nextJobId, -1, now, 0, false, false, job)]
        && e'.launches == e.launches + [job.ticket] && e'.nextJobId == e.nextJobId + 1
      case WouldBlock => PushedBack(e, e', p, i)
      case SendFailed(error) =>
        && Left(e, e', p, i) && e'.supervisorFailed && !e'.connected && e'.children == []
        && job.ticket < |e'.ledger| && e'.ledger[job.ticket].fate == LaunchFailed(if error == 0 then 32 else error)
  }

  lemma TakenIsFiled(e: Exec, p: Priority, i: nat)
    requires Inv(e) && i < |Queue(e, p)|
    ensures Queue(e, p)[i].ticket < |e.ledger|
  {
    QueuedJob(e, p, i);
  }

  lemma TakingIs(e: Exec, p: Priority, i: nat)
    requires i < |Queue(e, p)|
    ensures Line(e, p) == Queue(e, p)
    ensures var e' := WithQueue(e, p, RemoveAt(Queue(e, p), i)); Left(e, e', p, i)
  {
  }

  lemma WithdrawIs(e: Exec, p: Priority, i: nat, fate: Fate)
    requires i < |Queue(e, p)| && Queue(e, p)[i].ticket < |e.ledger|
    ensures Line(e, p) == Queue(e, p)
    ensures var e' := Withdraw(e, p, i, fate);
            && Left(e, e', p, i) && Became(e, e', Queue(e, p)[i].ticket, fate) && e'.children == e.children
            && e'.supervisorFailed == e.supervisorFailed
  {
    TakingIs(e, p, i);
    WithdrawKeepsLines(e, p, i, fate);
    hide Unlaunched, WithdrawalError, RemoveAt, Withdraw;
    var e1 := WithQueue(e, p, RemoveAt(Queue(e, p), i));
    SameLinesLeft(e, e1, Withdraw(e, p, i, fate), p, i);
    hide Left;
  }

  lemma WithdrawKeepsLines(e: Exec, p: Priority, i: nat, fate: Fate)
    requires i < |Queue(e, p)| && Queue(e, p)[i].ticket < |e.ledger|
    ensures var e1, e' := WithQueue(e, p, RemoveAt(Queue(e, p), i)), Withdraw(e, p, i, fate);
            && e'.critical == e1.critical && e'.normal == e1.normal && e'.children == e.children
            && e'.supervisorFailed == e.supervisorFailed && Became(e, e', Queue(e, p)[i].ticket, fate)
  {
    hide Unlaunched, WithdrawalError, RemoveAt;
  }

  lemma SameLinesLeft(e: Exec, e1: Exec, e': Exec, p: Priority, i: nat)
    requires i < |Line(e, p)| && Left(e, e1, p, i) && e'.critical == e1.critical && e'.normal == e1.normal
    ensures Left(e, e', p, i)
  {
  }

  lemma StartIs(e: Exec, p: Priority, i: nat, now: int)
    requires i < |Queue(e, p)| && Queue(e, p)[i].ticket < |e.ledger|
    ensures Line(e, p) == Queue(e, p)
    ensures var e', job := Start(e, p, i, now), Queue(e, p)[i];
            && Left(e, e', p, i) && Became(e, e', job.ticket, Running(e.nextJobId))
            && e'.children == e.children + [Child(e.nextJobId, -1, now, 0, false, false, job)]
            && e'.launches == e.launches + [job.ticket] && e'.nextJobId == e.nextJobId + 1
  {
  }

  lemma RequeueIs(e: Exec, p: Priority, i: nat)
    requires i < |Queue(e, p)|
    ensures Line(e, p) == Queue(e, p) && PushedBack(e, Requeue(e, p, i), p, i)
  {
  }

  // ---- What a lost supervisor leaves alone ----

  /** The queues, the limits and the connection are as they were. */
  predicate SameLines(e: Exec, e': Exec) {
    && e'.critical == e.critical && e'.normal == e.normal && e'.options == e.options && e'.stopping == e.stopping
    && e'.connected == e.connected && e'.supervisorFailed == e.supervisorFailed && e'.lastError == e.lastError
    && e'.nextJobId == e.nextJobId && e'.launches == e.launches && |e'.ledger| == |e.ledger|
    && e'.supervisorPid == e.supervisorPid && e'.restarts == e.restarts
  }

  lemma FinishLines(e: Exec, status: WaitStatus, execErrno: int, cause: Cause)
    requires e.children != []
    ensures SameLines(e, Finish(e, 0, status, execErrno, cause))
  {
    hide RemoveAt, ResultOf, Unsuccessful;
  }

  lemma {:induction false} FinishAllLines(e: Exec, failure: int, now: int)
    ensures SameLines(e, FinishAll(e, failure, now))
    decreases |e.children|
  {
    if e.children != [] {
      var e1 := KillLost(e, now);
      FinishLines(e1, Exited(127), failure, SupervisorLost);
      FinishShrinks(e1, Exited(127), failure, SupervisorLost);
      hide Finish;
      FinishAllLines(Finish(e1, 0, Exited(127), failure, SupervisorLost), failure, now);
    }
  }

  lemma FailLines(e: Exec, error: int, now: int, gone: bool)
    requires !e.supervisorFailed
    ensures var e', failure := FailSupervisor(e, error, now, gone), if error == 0 then 32 else error;
            && e'.critical == e.critical && e'.normal == e.normal && e'.children == []
            && e'.supervisorFailed && !e'.connected && e'.lastError == failure
            && (!e.stopping ==> e'.restartAfter == now + e.options.restartDelay)
            && e'.restarts == e.restarts
            && e'.supervisorPid == if e.supervisorPid > 0 && gone then -1 else e.supervisorPid
  {
    var failure := if error == 0 then EPIPE else error;
    FinishAllLines(ReapSupervisor(e.(supervisorFailed := true, lastError := failure, connected := false), gone),
                   failure, now);
    hide FinishAll;
  }

  lemma LaunchTries(e: Exec, p: Priority, i: nat, outcome: SendOutcome, now: int, gone: bool)
    requires Inv(e) && i < |Queue(e, p)| && !e.supervisorFailed
    ensures i < |Line(e, p)| && Tried(e, Launch(e, p, i, outcome, now, gone), p, i, outcome, now)
  {
    TakenIsFiled(e, p, i);
    WithdrawIs(e, p, i, LaunchFailed(E2BIG));
    StartIs(e, p, i, now);
    RequeueIs(e, p, i);
    if outcome.SendFailed? {
      FailedSendTries(e, p, i, outcome.error, now, gone);
    }
    hide Inv, Withdraw, Start, Requeue, FailSupervisor, Fits, Left, Became, PushedBack;
  }

  lemma FailedSendTries(e: Exec, p: Priority, i: nat, error: int, now: int, gone: bool)
    requires Inv(e) && i < |Queue(e, p)| && !e.supervisorFailed
    ensures var failure := if error == 0 then 32 else error; var job := Queue(e, p)[i];
            var e' := FailSupervisor(Withdraw(e, p, i, LaunchFailed(failure)), failure, now, gone);
            && i < |Line(e, p)| && Left(e, e', p, i) && e'.supervisorFailed && !e'.connected && e'.children == []
            && job.ticket < |e'.ledger| && e'.ledger[job.ticket].fate == LaunchFailed(failure)
  {
    hide Inv, Core, Withdraw, FailSupervisor, HookProgress.Advance, Left, Became;
    var failure := if error == 0 then EPIPE else error;
    var e1 := Withdraw(e, p, i, LaunchFailed(failure));
    TakenIsFiled(e, p, i);
    WithdrawIs(e, p, i, LaunchFailed(failure));
    FailLines(e1, failure, now, gone);
    CoreOf(e);
    WithdrawKeeps(e, p, i, LaunchFailed(failure));
    HookProgress.FailAdvances(e1, failure, now, gone);
    LeftStays(e, e1, FailSupervisor(e1, failure, now, gone), p, i, failure);
  }

  lemma CoreOf(e: Exec)
    requires Inv(e)
    ensures Core(e)
  {
    hide Core;
  }

  lemma LeftStays(e: Exec, e1: Exec, e': Exec, p: Priority, i: nat, failure: int)
    requires i < |Line(e, p)| && Left(e, e1, p, i) && Became(e, e1, Line(e, p)[i].ticket, LaunchFailed(failure))
    requires e'.critical == e1.critical && e'.normal == e1.normal && HookProgress.Advance(e1, e')
    ensures var t := Line(e, p)[i].ticket;
            Left(e, e', p, i) && t < |e'.ledger| && e'.ledger[t].fate == LaunchFailed(failure)
  {
    hide HookProgress.PidsKept, HookProgress.NoResponseUsed;
  }

  // ---- Main results ----

  /** Some pending job is not held back. */
  ghost predicate SomeRunnable(e: Exec) {
    !AllHeld(e, e.critical) || !AllHeld(e, e.normal)
  }

  /** The worker has not left its loop, is not to stop, has a supervisor, a free place and a job id. */
  predicate HasPlace(w: World) {
    && !w.exited && !w.exec.stopping && !w.exec.supervisorFailed
    && |w.exec.children| < w.exec.options.maxConcurrent && w.exec.nextJobId < 0x1_0000_0000_0000_0000
  }

  lemma LaunchWorldExec(w: World, outcome: SendOutcome, now: int, gone: bool)
    ensures var w' := Next(w, LaunchStep(outcome, now, gone)); var c := Choose(w.exec);
            w'.exec == if LaunchEnabled(w) then Launch(w.exec, c.priority, c.index, outcome, now, gone) else w.exec
  {
    hide Choose, Launch, MayLaunch, Fits, Encodable, LaunchBytes;
  }

  lemma EnabledWhen(w: World)
    ensures LaunchEnabled(w) <==> HasPlace(w) && SomeRunnable(w.exec)
  {
    var e := w.exec;
    ChoiceIsNext(e);
    hide Choose, Held;
    if Choose(e).NoJob? {
      assert !SomeRunnable(e);
    } else {
      NextIsPending(e, Choose(e).priority, Choose(e).index);
    }
  }

  lemma NextIsPending(e: Exec, p: Priority, i: nat)
    requires NextInLine(e, p, i)
    ensures SomeRunnable(e) && PendingCount(e) > 0 && i < |Line(e, p)|
  {
    hide Held;
  }

  /**
   In every reachable world a launch is attempted exactly when the worker has a place and some pending
   job is not held back by a running child with its serial key. The job taken is then the first such
   in its queue, and a normal one only if every pending critical job is held back; what becomes of it
   is decided by its size and by what the send returns.
   */
  lemma LaunchTakesNextInLine(w: World, outcome: SendOutcome, now: int, gone: bool)
    requires Reachable(w)
    ensures var e, e' := w.exec, Next(w, LaunchStep(outcome, now, gone)).exec;
            if HasPlace(w) && SomeRunnable(e) then
              exists p, i: nat :: NextInLine(e, p, i) && i < |Line(e, p)| && Tried(e, e', p, i, outcome, now)
            else e' == e
  {
    ReachableKeeps(w);
    EnabledWhen(w);
    LaunchWorldExec(w, outcome, now, gone);
    ChoiceIsNext(w.exec);
    hide Reachable, Inv, Next, Launch, Choose, NextInLine, SomeRunnable, HasPlace, Tried;
    if LaunchEnabled(w) {
      var c := Choose(w.exec);
      LaunchTries(w.exec, c.priority, c.index, outcome, now, gone);
      assert NextInLine(w.exec, c.priority, c.index);
    }
  }

  /**
   In every reachable world a launch that is sent puts the encoding of its own job under its own id
   behind the requests in transit; one that is not sent adds none.
   */
  lemma SentJobIsRequested(w: World, outcome: SendOutcome, now: int, gone: bool)
    requires Reachable(w)
    ensures var w' := Next(w, LaunchStep(outcome, now, gone));
            if w'.exec.launches != w.exec.launches then
              && w'.exec.children != []
              && (var child := w'.exec.children[|w'.exec.children| - 1];
                  && child.jobId == w.exec.nextJobId < U64_LIMIT && Encodable(child.job.request.argv)
                  && w'.requests == w.requests + [LaunchBytes(child.jobId, child.job.request.argv)]
                  && w'.waiting == w.waiting + [child.jobId] && w'.responses == w.responses)
            else |w'.requests| <= |w.requests| && |w'.waiting| <= |w.waiting|
  {
    hide Reachable, WorldInv, Choose, LaunchEnabled, LaunchBytes, Inv, Launch, Next, Fits, Encodable, Tried;
    ReachableKeeps(w);
    InvOf(w);
    LaunchWorldExec(w, outcome, now, gone);
    if !LaunchEnabled(w) {
      NotEnabledIsQuiet(w, outcome, now, gone);
    } else {
      var c := Choose(w.exec);
      EnabledIsUp(w);
      var argv := Queue(w.exec, c.priority)[c.index].request.argv;
      LaunchWorldRequests(w, outcome, now, gone);
      LaunchTries(w.exec, c.priority, c.index, outcome, now, gone);
      LineIsQueue(w.exec, c.priority);
      FittingIsEncodable(argv);
      if Fits(argv) {
        FitsIsSmall(argv);
      }
      LaunchedOnlyWhenSent(w.exec, c.priority, c.index, outcome, now, gone);
      if Fits(argv) && outcome.Sent? {
        SentTried(w.exec, Launch(w.exec, c.priority, c.index, outcome, now, gone), c.priority, c.index, now);
      }
    }
  }

  lemma EnabledIsUp(w: World)
    requires LaunchEnabled(w)
    ensures !w.exec.supervisorFailed && w.exec.nextJobId < U64_LIMIT && Choose(w.exec).Chosen?
  {
    hide Choose;
  }

  lemma FitsIsSmall(argv: seq<Argument>)
    requires Fits(argv)
    ensures BodySize(argv) < U32_LIMIT
  {
  }

  lemma SentTried(e: Exec, e': Exec, p: Priority, i: nat, now: int)
    requires i < |Line(e, p)| && Fits(Line(e, p)[i].request.argv) && Tried(e, e', p, i, Sent, now)
    ensures e'.children == e.children + [Child(e.nextJobId, -1, now, 0, false, false, Line(e, p)[i])]
    ensures e'.launches != e.launches
  {
    hide Fits, Left, Became;
  }

  lemma NotEnabledIsQuiet(w: World, outcome: SendOutcome, now: int, gone: bool)
    requires !LaunchEnabled(w)
    ensures Next(w, LaunchStep(outcome, now, gone)) == w
  {
    hide LaunchEnabled, LaunchWorld;
  }

  lemma LaunchWorldRequests(w: World, outcome: SendOutcome, now: int, gone: bool)
    requires LaunchEnabled(w)
    ensures var w', c := Next(w, LaunchStep(outcome, now, gone)), Choose(w.exec);
            var argv := Queue(w.exec, c.priority)[c.index].request.argv;
            if Fits(argv) && outcome.Sent? && Encodable(argv) then
              && w'.requests == w.requests + [LaunchBytes(w.exec.nextJobId, argv)]
              && w'.waiting == w.waiting + [w.exec.nextJobId] && w'.responses == w.responses
            else |w'.requests| <= |w.requests| && |w'.waiting| <= |w.waiting|
  {
    hide Choose, MayLaunch, Launch, Fits, Encodable, LaunchBytes;
  }

  lemma LaunchedOnlyWhenSent(e: Exec, p: Priority, i: nat, outcome: SendOutcome, now: int, gone: bool)
    requires i < |Queue(e, p)| && !e.supervisorFailed
    ensures Launch(e, p, i, outcome, now, gone).launches != e.launches ==>
              Fits(Queue(e, p)[i].request.argv) && outcome.Sent?
  {
    var failure := if outcome.SendFailed? && outcome.error != 0 then outcome.error else EPIPE;
    WithdrawLaunches(e, p, i, LaunchFailed(failure));
    WithdrawLaunches(e, p, i, LaunchFailed(E2BIG));
    FailLaunches(Withdraw(e, p, i, LaunchFailed(failure)), failure, now, gone);
    hide Withdraw, FailSupervisor, Fits, Start;
  }

  lemma WithdrawLaunches(e: Exec, p: Priority, i: nat, fate: Fate)
    requires i < |Queue(e, p)|
    ensures Withdraw(e, p, i, fate).launches == e.launches
  {
    hide RemoveAt, Unlaunched, WithdrawalError;
  }

  lemma FailLaunches(e: Exec, error: int, now: int, gone: bool)
    ensures FailSupervisor(e, error, now, gone).launches == e.launches
  {
    var failure := if error == 0 then EPIPE else error;
    FinishAllLines(ReapSupervisor(e.(supervisorFailed := true, lastError := failure, connected := false), gone),
                   failure, now);
    hide FinishAll;
  }

  // ---- The launch loop ----

  lemma TriedShrinks(e: Exec, e': Exec, p: Priority, i: nat, outcome: SendOutcome, now: int)
    requires i < |Line(e, p)| && Tried(e, e', p, i, outcome, now)
    requires !outcome.WouldBlock? || !Fits(Line(e, p)[i].request.argv)
    ensures PendingCount(e') == PendingCount(e) - 1
  {
    hide Fits;
  }

  /**
   The loop conserves work: given enough outcomes, none of them backpressure, it leaves off only when
   the worker must not launch, the places are taken, or every pending job is held back.
   */
  lemma {:induction false} LaunchLoopLeavesNothing(e: Exec, outcomes: seq<SendOutcome>, now: int, gone: bool)
    requires Inv(e) && |outcomes| >= PendingCount(e)
    requires forall i :: 0 <= i < |outcomes| ==> !outcomes[i].WouldBlock?
    ensures var e' := LaunchRounds(e, outcomes, now, gone);
            e'.stopping || e'.supervisorFailed || |e'.children| >= e'.options.maxConcurrent || !SomeRunnable(e')
    decreases |outcomes|
  {
    hide Inv, Choose, Launch, SomeRunnable, NextInLine, Tried, Fits;
    ChoiceIsNext(e);
    var c := Choose(e);
    if PendingCount(e) == 0 || c.NoJob? {
      NothingRunnable(e);
    } else if MayLaunch(e) {
      NextIsPending(e, c.priority, c.index);
      LaunchTries(e, c.priority, c.index, outcomes[0], now, gone);
      LaunchKeeps(e, outcomes[0], now, gone);
      var e' := Launch(e, c.priority, c.index, outcomes[0], now, gone);
      LineIsQueue(e, c.priority);
      TriedShrinks(e, e', c.priority, c.index, outcomes[0], now);
      LaunchLoopLeavesNothing(e', outcomes[1..], now, gone);
    }
  }

  lemma LineIsQueue(e: Exec, p: Priority)
    ensures Line(e, p) == Queue(e, p)
  {
  }

  lemma NothingRunnable(e: Exec)
    requires PendingCount(e) == 0 || (AllHeld(e, e.critical) && AllHeld(e, e.normal))
    ensures !SomeRunnable(e)
  {
    hide Held;
  }
}
