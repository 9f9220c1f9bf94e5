/** The hook executor as the object it is: fields updated in place under the mutex. */
module HookExecutor {
  import opened Bytes
  import HookCodec
  import opened HookState
  import HookExecutorFacts
  import HookInvariants
  import HookScheduling

  datatype SubmitResult = InvalidArgument | Accepted | Refused

  class Executor {
    const options: Options
    var critical: seq<Job>
    var normal: seq<Job>
    var children: seq<Child>
    var completions: seq<Delivery>
    var stopping: bool
    var connected: bool
    var supervisorPid: int
    var supervisorFailed: bool
    var nextJobId: nat
    var restartAfter: int
    var submitted: nat
    var completed: nat
    var timedOut: nat
    var failed: nat
    var dropped: nat
    var coalesced: nat
    var backpressure: nat
    var restarts: nat
    var lastError: int
    ghost var ledger: seq<Entry>
    ghost var launches: seq<nat>
    ghost var posted: seq<Delivery>
    ghost var signals: seq<Signal>

    ghost function View(): Exec
      reads this
    {
      Exec(options, critical, normal, children, completions, stopping, connected, supervisorPid, supervisorFailed,
           nextJobId, restartAfter, submitted, completed, timedOut, failed, dropped, coalesced, backpressure,
           restarts, lastError, ledger, launches, posted, signals)
    }

    ghost predicate Valid()
      reads this
    {
      HookInvariants.Inv(View())
    }

    constructor (options: Options, supervisorPid: int)
      requires ValidOptions(options)
      ensures View() == Init(options, supervisorPid) && Valid()
    {
      this.options := options;
      critical, normal, children, completions := [], [], [], [];
      stopping, connected, supervisorFailed := false, true, false;
      this.supervisorPid, nextJobId, restartAfter, lastError := supervisorPid, 1, 0, 0;
      submitted, completed, timedOut, failed, dropped := 0, 0, 0, 0, 0;
      coalesced, backpressure, restarts := 0, 0, 0;
      ledger, launches, posted, signals := [], [], [], [];
      new;
      HookInvariants.InitKeeps(options, supervisorPid);
    }

    // ---- Searching ----

    method IsBlocked(key: string) returns (blocked: bool)
      ensures blocked <==> Blocked(key, children)
    {
      if key == "" {
        return false;
      }
      for i := 0 to |children|
        invariant forall k :: 0 <= k < i ==> children[k].job.request.serialKey != key
      {
        if children[i].job.request.serialKey == key {
          return true;
        }
      }
      return false;
    }

    method FindRunnable(queue: seq<Job>) returns (i: nat)
      ensures i == First(queue, Runnable(children))
    {
      i := 0;
      while i < |queue|
        invariant i <= |queue|
        invariant forall k :: 0 <= k < i ==> !Matches(Runnable(children), queue[k])
      {
        var blocked := IsBlocked(queue[i].request.serialKey);
        if !blocked {
          break;
        }
        i := i + 1;
      }
      FirstIsUnique(queue, Runnable(children), i);
    }

    static method FindWanted(queue: seq<Job>, want: Want) returns (i: nat)
      requires !want.Runnable?
      ensures i == First(queue, want)
    {
      i := 0;
      while i < |queue| && !Matches(want, queue[i])
        invariant i <= |queue|
        invariant forall k :: 0 <= k < i ==> !Matches(want, queue[k])
      {
        i := i + 1;
      }
      FirstIsUnique(queue, want, i);
    }

    // ---- Tickets and callbacks ----

    ghost method SetFate(ticket: nat, fate: Fate)
      modifies this`ledger
      ensures View() == Mark(old(View()), ticket, fate)
    {
      if ticket < |ledger| {
        ledger := ledger[ticket := ledger[ticket].(fate := fate)];
      }
    }

    method QueueCallback(job: Job, result: HookResult)
      modifies this`completions, this`posted
      ensures View() == Post(old(View()), job, result)
    {
      if job.request.hasCallback {
        completions := completions + [Delivery(job.ticket, result)];
        posted := posted + [Delivery(job.ticket, result)];
      }
    }

    /** The ECANCELED callback of a job that has just left its queue. */
    method Cancel(job: Job, ghost fate: Fate)
      modifies this`completions, this`posted, this`ledger
      ensures View() == Post(Mark(old(View()), job.ticket, fate), job, Unlaunched(job.request.argv, ECANCELED))
    {
      hide Post, Mark;
      SetFate(job.ticket, fate);
      QueueCallback(job, HookResult(job.request.argv, -1, -1, 0, ECANCELED, false));
    }

    // ---- Submission ----

    method Take(p: Priority, i: nat) returns (job: Job)
      requires i < |if p.Critical? then critical else normal|
      modifies this`critical, this`normal
      ensures job == Queue(old(View()), p)[i]
      ensures View() == WithQueue(old(View()), p, RemoveAt(Queue(old(View()), p), i))
    {
      if p.Critical? {
        job, critical := critical[i], RemoveAt(critical, i);
      } else {
        job, normal := normal[i], RemoveAt(normal, i);
      }
    }

    method Append(job: Job)
      modifies this`critical, this`normal
      ensures var e, p := old(View()), job.request.priority; View() == WithQueue(e, p, Queue(e, p) + [job])
    {
      if job.request.priority.Critical? {
        critical := critical + [job];
      } else {
        normal := normal + [job];
      }
    }

    /** A submission takes the next ticket. */
    method File(entry: Entry)
      modifies this`submitted, this`ledger
      ensures View() == old(View()).(submitted := old(submitted) + 1, ledger := old(ledger) + [entry])
    {
      submitted := submitted + 1;
      ledger := ledger + [entry];
    }

    /** A job joins the back of its own queue. */
    method Admit(s: Submission)
      modifies this`critical, this`normal, this`submitted, this`ledger
      ensures View() == Enqueue(old(View()), s)
    {
      var job := Job(submitted, s);
      Append(job);
      File(Entry(job, Pending));
    }

    method Refuse(s: Submission)
      modifies this`submitted, this`dropped, this`ledger
      ensures View() == Reject(old(View()), s)
    {
      File(Entry(Job(submitted, s), Rejected));
      dropped := dropped + 1;
    }

    method CoalescePending(s: Submission) returns (done: bool)
      modifies this`critical, this`normal, this`completions, this`coalesced, this`submitted, this`ledger, this`posted
      ensures done <==> Merges(old(View()), s)
      ensures View() == if done then Merge(old(View()), s) else old(View())
    {
      hide First, RemoveAt, Post, Mark, Enqueue;
      if s.coalesceKey == "" {
        return false;
      }
      ghost var e := View();
      var want := SameKey(s.coalesceKey);
      var p := Critical;
      var i := FindWanted(critical, want);
      if i == |critical| {
        p := Normal;
        i := FindWanted(normal, want);
        if i == |normal| {
          return false;
        }
      }
      var existing := Take(p, i);
      coalesced := coalesced + 1;
      Cancel(existing, Superseded);
      assert View() == Withdraw(e, p, i, Superseded);
      hide Withdraw;
      Admit(s);
      return true;
    }

    ghost predicate Merges(e: Exec, s: Submission) {
      s.coalesceKey != "" && (First(e.critical, SameKey(s.coalesceKey)) < |e.critical|
                              || First(e.normal, SameKey(s.coalesceKey)) < |e.normal|)
    }

    /** The result of coalescing, as `HookState.Submit` states it. */
    ghost function Merge(e: Exec, s: Submission): Exec
      requires Merges(e, s)
    {
      if First(e.critical, SameKey(s.coalesceKey)) < |e.critical| then
        Enqueue(Withdraw(e, Critical, First(e.critical, SameKey(s.coalesceKey)), Superseded), s)
      else
        Enqueue(Withdraw(e, Normal, First(e.normal, SameKey(s.coalesceKey)), Superseded), s)
    }

    method EvictCoalescibleJob() returns (done: bool)
      modifies this`critical, this`normal, this`completions, this`dropped, this`ledger, this`posted
      ensures var e := old(View()); var i := First(e.normal, Coalescible);
              if i < |e.normal| then done && View() == Withdraw(e, Normal, i, Evicted)
              else !done && View() == e
    {
      hide First, RemoveAt, Post, Mark;
      var i := FindWanted(normal, Coalescible);
      if i == |normal| {
        return false;
      }
      var victim := Take(Normal, i);
      dropped := dropped + 1;
      Cancel(victim, Evicted);
      return true;
    }

    static method CheckArgv(argv: seq<HookCodec.Argument>) returns (ok: bool)
      ensures ok <==> WellFormedArgv(argv)
    {
      if argv == [] || argv[0] == [] {
        return false;
      }
      for i := 0 to |argv|
        invariant forall k :: 0 <= k < i ==> 0 !in argv[k]
      {
        for j := 0 to |argv[i]|
          invariant 0 !in argv[i][..j]
        {
          if argv[i][j] == 0 {
            return false;
          }
        }
        assert argv[i][..|argv[i]|] == argv[i];
      }
      return true;
    }

    method Submit(s: Submission) returns (r: SubmitResult)
      requires Valid()
      modifies this
      ensures Valid()
      ensures r.InvalidArgument? <==> !WellFormedArgv(s.argv)
      ensures r.InvalidArgument? ==> View() == old(View())
      ensures !r.InvalidArgument? ==> View() == HookState.Submit(old(View()), s)
      ensures r.Accepted? ==> HookState.Accepted(old(View()), s)
      ensures r.Refused? ==> !HookState.Accepted(old(View()), s)
    {
      hide WellFormedArgv, HookState.Submit, HookState.Accepted, HookInvariants.Inv;
      var ok := CheckArgv(s.argv);
      if !ok {
        return InvalidArgument;
      }
      HookInvariants.SubmitKeeps(View(), s);
      NumbersAgree();
      r := SubmitLocked(s);
    }

    lemma NumbersAgree()
      requires Valid()
      ensures |ledger| == submitted
    {
      assert HookInvariants.CountersOk(View());
    }

    method SubmitLocked(s: Submission) returns (r: SubmitResult)
      requires |ledger| == submitted
      modifies this
      ensures View() == HookState.Submit(old(View()), s)
      ensures if HookState.Accepted(old(View()), s) then r.Accepted? else r.Refused?
    {
      hide First, Withdraw, Enqueue, Reject, Matches;
      SubmitOutcome(View(), s);
      if stopping {
        Refuse(s);
        return Refused;
      }
      var merged := CoalescePending(s);
      if merged {
        return Accepted;
      }
      if |critical| + |normal| >= options.maxPending {
        var room := false;
        if s.priority.Critical? {
          room := EvictCoalescibleJob();
        }
        if !room {
          Refuse(s);
          return Refused;
        }
      }
      Admit(s);
      return Accepted;
    }

    /** Acceptance, case by case. */
    static lemma SubmitOutcome(e: Exec, s: Submission)
      requires |e.ledger| == e.submitted
      ensures HookState.Accepted(e, s) <==>
                !e.stopping &&
                ((s.coalesceKey != "" && (First(e.critical, SameKey(s.coalesceKey)) < |e.critical|
                                          || First(e.normal, SameKey(s.coalesceKey)) < |e.normal|))
                 || PendingCount(e) < e.options.maxPending
                 || (s.priority.Critical? && First(e.normal, Coalescible) < |e.normal|))
    {
      hide First, Withdraw;
      forall p: Priority, i: nat, fate | i < |Queue(e, p)| ensures |Withdraw(e, p, i, fate).ledger| == |e.ledger| {
        WithdrawSize(e, p, i, fate);
      }
    }

    static lemma WithdrawSize(e: Exec, p: Priority, i: nat, fate: Fate)
      requires i < |Queue(e, p)|
      ensures |Withdraw(e, p, i, fate).ledger| == |e.ledger|
    {
    }

    // ---- Finishing ----

    method CountFinish(result: HookResult)
      modifies this`completed, this`timedOut, this`failed
      ensures View() == old(View()).(completed := old(completed) + 1,
                                     timedOut := old(timedOut) + if result.timedOut then 1 else 0,
                                     failed := old(failed) + if Unsuccessful(result) then 1 else 0)
    {
      completed := completed + 1;
      if result.timedOut {
        timedOut := timedOut + 1;
      }
      if result.execErrno != 0 || result.exitCode != 0 || result.termSignal != 0 {
        failed := failed + 1;
      }
    }

    method FinishChild(i: nat, status: WaitStatus, execErrno: int, ghost cause: Cause)
      requires i < |children|
      modifies this`children, this`completed, this`timedOut, this`failed, this`completions, this`ledger, this`posted
      ensures View() == Finish(old(View()), i, status, execErrno, cause)
    {
      hide Post, Mark, Unsuccessful, RemoveAt;
      var child := children[i];
      children := RemoveAt(children, i);
      assert View() == old(View()).(children := RemoveAt(old(children), i));
      var result := HookResult(child.job.request.argv, child.pid,
                               if status.Exited? then status.code else -1,
                               if status.Signaled? then status.signal else 0, execErrno, child.timedOut);
      CountFinish(result);
      SetFate(child.job.ticket, Done(child.jobId, cause, result));
      QueueCallback(child.job, result);
    }

    method ReapSupervisorNonblocking(gone: bool)
      modifies this`supervisorPid
      ensures View() == ReapSupervisor(old(View()), gone)
    {
      if supervisorPid > 0 && gone {
        supervisorPid := -1;
      }
    }

    /** The SIGKILL to the first child's process group, when its pid is known. */
    method KillFirst(now: int)
      requires children != []
      modifies this`signals
      ensures View() == KillLost(old(View()), now)
    {
      if children[0].pid > 0 {
        signals := signals + [Signal(children[0].jobId, LossKill, now)];
      }
    }

    method FinishEveryChild(failure: int, now: int)
      modifies this`children, this`completed, this`timedOut, this`failed, this`completions
      modifies this`ledger, this`posted, this`signals
      ensures View() == FinishAll(old(View()), failure, now)
    {
      hide Finish, KillLost;
      while children != []
        invariant FinishAll(View(), failure, now) == FinishAll(old(View()), failure, now)
        decreases |children|
      {
        HookExecutorFacts.KilledStays(View(), now);
        KillFirst(now);
        HookInvariants.FinishShrinks(View(), Exited(127), failure, SupervisorLost);
        FinishChild(0, Exited(127), failure, SupervisorLost);
      }
    }

    method Disconnect(failure: int, gone: bool)
      modifies this`supervisorFailed, this`lastError, this`connected, this`supervisorPid
      ensures View() == ReapSupervisor(old(View()).(supervisorFailed := true, lastError := failure, connected := false),
                                       gone)
    {
      hide ReapSupervisor;
      supervisorFailed := true;
      lastError := failure;
      connected := false;
      ReapSupervisorNonblocking(gone);
    }

    method ScheduleRestart(now: int)
      modifies this`restartAfter
      ensures View() == if stopping then old(View()) else old(View()).(restartAfter := now + options.restartDelay)
    {
      if !stopping {
        restartAfter := now + options.restartDelay;
      }
    }

    method FailSupervisor(error: int, now: int, gone: bool)
      modifies this
      ensures View() == HookState.FailSupervisor(old(View()), error, now, gone)
    {
      hide FinishAll;
      if supervisorFailed {
        return;
      }
      hide ReapSupervisor;
      var failure := if error == 0 then EPIPE else error;
      Disconnect(failure, gone);
      FinishEveryChild(failure, now);
      ScheduleRestart(now);
    }

    // ---- Launching ----

    method CompleteJob(job: Job, error: int)
      modifies this`completed, this`failed, this`completions, this`ledger, this`posted
      ensures View() == Post(Mark(old(View()).(completed := old(completed) + 1,
                                               failed := old(failed) + if error != 0 then 1 else 0),
                                  job.ticket, LaunchFailed(error)),
                             job, Unlaunched(job.request.argv, error))
    {
      hide Post, Mark;
      completed := completed + 1;
      if error != 0 {
        failed := failed + 1;
      }
      SetFate(job.ticket, LaunchFailed(error));
      QueueCallback(job, HookResult(job.request.argv, -1, -1, 0, error, false));
    }

    method RecordLaunch(job: Job, now: int)
      modifies this`nextJobId, this`children, this`launches, this`ledger
      ensures var e := old(View());
              View() == Mark(e.(nextJobId := e.nextJobId + 1,
                                children := e.children + [Child(e.nextJobId, -1, now, 0, false, false, job)],
                                launches := e.launches + [job.ticket]),
                             job.ticket, Running(e.nextJobId))
    {
      hide Mark;
      var jobId := nextJobId;
      nextJobId := nextJobId + 1;
      children := children + [Child(jobId, -1, now, 0, false, false, job)];
      launches := launches + [job.ticket];
      SetFate(job.ticket, Running(jobId));
    }

    /** The job just taken from its queue is finished without having been launched. */
    method FailLaunch(job: Job, error: int, ghost e: Exec, ghost p: Priority, ghost i: nat)
      requires i < |Queue(e, p)| && job == Queue(e, p)[i]
      requires View() == WithQueue(e, p, RemoveAt(Queue(e, p), i))
      modifies this`completed, this`failed, this`completions, this`ledger, this`posted
      ensures View() == Withdraw(e, p, i, LaunchFailed(error))
    {
      hide Post, Mark, RemoveAt, Withdraw;
      CompleteJob(job, error);
      HookExecutorFacts.FailedLaunchIs(e, p, i, error);
      hide WithQueue;
    }

    /** The job just taken from its queue has been sent to the supervisor. */
    method StartChild(job: Job, now: int, ghost e: Exec, ghost p: Priority, ghost i: nat)
      requires i < |Queue(e, p)| && job == Queue(e, p)[i]
      requires View() == WithQueue(e, p, RemoveAt(Queue(e, p), i))
      modifies this`nextJobId, this`children, this`launches, this`ledger
      ensures View() == Start(e, p, i, now)
    {
      hide Mark, RemoveAt, Start;
      RecordLaunch(job, now);
      HookExecutorFacts.StartIs(e, p, i, now);
      hide WithQueue;
    }

    /** Sends the job just taken from place `i` of queue `p`; false means backpressure. */
    method LaunchJob(job: Job, outcome: SendOutcome, now: int, gone: bool,
                     ghost e: Exec, ghost p: Priority, ghost i: nat)
      returns (settled: bool, packet: seq<byte>)
      requires i < |Queue(e, p)| && job == Queue(e, p)[i] && nextJobId < U64_LIMIT
      requires View() == WithQueue(e, p, RemoveAt(Queue(e, p), i))
      modifies this
      ensures settled <==> !(HookCodec.Fits(job.request.argv) && outcome.WouldBlock?)
      ensures settled ==> View() == Launch(e, p, i, outcome, now, gone)
      ensures !settled ==> View() == old(View()).(backpressure := old(backpressure) + 1)
      ensures HookCodec.Fits(job.request.argv) ==>
                HookCodec.Encodable(job.request.argv)
                && packet == HookCodec.LaunchBytes(old(nextJobId), job.request.argv)
    {
      hide HookCodec.Fits, HookCodec.Encodable, HookCodec.LaunchBytes, HookCodec.RequestSize;
      hide RemoveAt, WithQueue, Withdraw, Start, HookState.FailSupervisor;
      var size, tooLarge := HookCodec.MeasureRequest(job.request.argv);
      if tooLarge {
        FailLaunch(job, E2BIG, e, p, i);
        return true, [];
      }
      var request := HookCodec.EncodeLaunch(nextJobId, job.request.argv);
      packet := request[..];
      match outcome
      case WouldBlock =>
        backpressure := backpressure + 1;
        settled := false;
      case SendFailed(error) =>
        var sendError := if error == 0 then EPIPE else error;
        FailLaunch(job, sendError, e, p, i);
        FailSupervisor(sendError, now, gone);
        settled := true;
      case Sent =>
        StartChild(job, now, e, p, i);
        settled := true;
    }

    method PopNextJob() returns (found: bool, job: Job, p: Priority, i: nat)
      requires critical != [] || normal != []
      modifies this`critical, this`normal
      ensures found <==> Choose(old(View())).Chosen?
      ensures !found ==> View() == old(View())
      ensures if found then HookScheduling.NextInLine(old(View()), p, i)
              else HookScheduling.AllHeld(View(), critical) && HookScheduling.AllHeld(View(), normal)
      ensures found ==>
                && Choose(old(View())) == Chosen(p, i) && job == Queue(old(View()), p)[i]
                && View() == WithQueue(old(View()), p, RemoveAt(Queue(old(View()), p), i))
    {
      hide First, RemoveAt, HookScheduling.NextInLine, HookScheduling.AllHeld;
      HookScheduling.ChoiceIsNext(View());
      p, job, found := Critical, if critical != [] then critical[0] else normal[0], true;
      i := FindRunnable(critical);
      if i == |critical| {
        p := Normal;
        i := FindRunnable(normal);
        if i == |normal| {
          found := false;
          return;
        }
      }
      job := Take(p, i);
    }

    method PushFront(job: Job, p: Priority)
      modifies this`critical, this`normal
      ensures View() == WithQueue(old(View()), p, [job] + Queue(old(View()), p))
    {
      if p.Critical? {
        critical := [job] + critical;
      } else {
        normal := [job] + normal;
      }
    }

    /** One round of the worker's launch loop; false ends the loop. */
    method LaunchNext(outcome: SendOutcome, now: int, gone: bool) returns (more: bool, packet: seq<byte>)
      requires MayLaunch(View()) && nextJobId < U64_LIMIT && Valid()
      modifies this
      ensures Choose(old(View())).NoJob? ==> !more && View() == old(View())
      ensures Choose(old(View())).Chosen? ==>
                var c := Choose(old(View())); var argv := Queue(old(View()), c.priority)[c.index].request.argv;
                && View() == Launch(old(View()), c.priority, c.index, outcome, now, gone)
                && (more <==> !Backpressured(old(View()), c, outcome))
                && (HookCodec.Fits(argv) ==>
                      HookCodec.Encodable(argv) && packet == HookCodec.LaunchBytes(old(nextJobId), argv))
    {
      hide Choose, RemoveAt, HookCodec.Fits, HookCodec.Encodable, HookCodec.LaunchBytes, Withdraw, Start;
      hide HookState.FailSupervisor, HookInvariants.Inv;
      ghost var e := View();
      var found, job, p, i := PopNextJob();
      if !found {
        return false, [];
      }
      HookExecutorFacts.QueuedPriority(e, p, i);
      more, packet := LaunchJob(job, outcome, now, gone, e, p, i);
      if !more {
        PushFront(job, job.request.priority);
      }
    }

    // ---- Supervisor results ----

    method FindChild(jobId: nat) returns (i: nat)
      ensures i == IndexOf(children, jobId)
    {
      i := 0;
      while i < |children| && children[i].jobId != jobId
        invariant i <= |children|
        invariant forall k :: 0 <= k < i ==> children[k].jobId != jobId
      {
        i := i + 1;
      }
      HookExecutorFacts.IndexIsUnique(children, jobId, i);
    }

    method ReceiveOne(response: Response)
      modifies this
      ensures View() == Receive(old(View()), response)
    {
      hide IndexOf, Finish;
      var i := FindChild(response.jobId);
      if i == |children| {
        return;
      }
      if response.Launched? {
        children := children[i := children[i].(pid := response.pid)];
      } else {
        if children[i].pid < 0 {
          children := children[i := children[i].(pid := response.pid)];
        }
        FinishChild(i, response.status, response.execErrno, OwnResponse);
      }
    }

    method ReceiveSupervisorResults(inbox: seq<Incoming>, now: int, gone: bool)
      modifies this
      ensures View() == ReceiveAll(old(View()), inbox, now, gone)
    {
      hide Receive, HookState.FailSupervisor;
      if !connected {
        return;
      }
      var n := 0;
      assert inbox[0..] == inbox;
      while n < |inbox|
        invariant n <= |inbox| && connected
        invariant ReceiveAll(View(), inbox[n..], now, gone) == ReceiveAll(old(View()), inbox, now, gone)
        decreases |inbox| - n
      {
        assert inbox[n..][1..] == inbox[n + 1..];
        match inbox[n] {
          case Empty =>
            return;
          case Interrupted =>
          case Broken(error) =>
            FailSupervisor(error, now, gone);
            return;
          case Message(response) =>
            HookExecutorFacts.ReceiveStaysConnected(View(), response);
            ReceiveOne(response);
        }
        n := n + 1;
      }
    }

    // ---- Expiry, stop, restart, delivery ----

    method EscalateChild(i: nat, action: Action, now: int)
      requires i < |children| && !action.LossKill?
      modifies this`children, this`signals
      ensures View() == Escalate(old(View()), i, action, now)
    {
      var c := children[i];
      signals := signals + [Signal(c.jobId, action, now)];
      if action.Terminate? {
        c := c.(timedOut := true, terminated := now);
      } else {
        c := c.(sentKill := true);
      }
      children := children[i := c];
    }

    method ReapAndExpire(inbox: seq<Incoming>, now: int, gone: bool)
      modifies this
      ensures View() == HookState.ReapAndExpire(old(View()), inbox, now, gone)
    {
      hide ReceiveAll, HookState.FailSupervisor, Escalate;
      ReceiveSupervisorResults(inbox, now, gone);
      if supervisorFailed {
        ReapSupervisorNonblocking(gone);
      }
      hide ReapSupervisor;
      ghost var e := View();
      var i := 0;
      while i < |children|
        invariant ExpireFrom(View(), i, now, gone) == ExpireFrom(e, 0, now, gone)
        decreases |children| - i
      {
        HookInvariants.EscalateLength(View(), i, Terminate, now);
        HookInvariants.EscalateLength(View(), i, Kill, now);
        var child := children[i];
        if child.pid < 0 && now - child.started >= options.responseTimeout {
          FailSupervisor(ETIMEDOUT, now, gone);
          return;
        }
        if child.pid > 0 && !child.timedOut && (stopping || now - child.started >= options.timeout) {
          EscalateChild(i, Terminate, now);
        } else if child.timedOut && !child.sentKill && now - child.terminated >= options.terminateGrace {
          EscalateChild(i, Kill, now);
        }
        i := i + 1;
      }
    }

    method Stop(now: int)
      requires Valid()
      modifies this
      ensures View() == HookState.Stop(old(View()), now) && Valid()
    {
      hide Escalate, DiscardAll, HookInvariants.Inv;
      HookInvariants.StopKeeps(View(), now);
      hide TerminateFrom;
      DropPending();
      DiscardTickets();
      ghost var e := View();
      assert HookState.Stop(old(View()), now) == TerminateFrom(e, 0, now);
      TerminateChildren(now);
    }

    method DropPending()
      modifies this`stopping, this`dropped, this`critical, this`normal
      ensures View() == old(View()).(stopping := true, dropped := old(dropped) + |old(critical)| + |old(normal)|,
                                     critical := [], normal := [])
    {
      stopping := true;
      dropped := dropped + |critical| + |normal|;
      ClearQueues();
    }

    method ClearQueues()
      modifies this`critical, this`normal
      ensures View() == old(View()).(critical := [], normal := [])
    {
      critical := [];
      normal := [];
    }

    ghost method DiscardTickets()
      modifies this`ledger
      ensures View() == old(View()).(ledger := DiscardAll(old(ledger)))
    {
      ledger := DiscardAll(ledger);
    }

    method TerminateChildren(now: int)
      modifies this`children, this`signals
      ensures View() == TerminateFrom(old(View()), 0, now)
    {
      hide Escalate;
      ghost var e := View();
      var i := 0;
      while i < |children|
        invariant TerminateFrom(View(), i, now) == TerminateFrom(e, 0, now)
        decreases |children| - i
      {
        HookInvariants.EscalateLength(View(), i, Terminate, now);
        var child := children[i];
        if child.pid > 0 && !child.timedOut {
          EscalateChild(i, Terminate, now);
        }
        i := i + 1;
      }
    }

    method RestartIfDue(spawn: Spawn, now: int)
      requires Valid() && (spawn.Spawned? ==> spawn.pid > 0)
      modifies this
      ensures View() == if MayRestart(old(View()), now) then Restart(old(View()), spawn, now) else old(View())
      ensures Valid()
    {
      hide HookInvariants.Inv, Restart;
      if !stopping && supervisorFailed && supervisorPid <= 0 && now >= restartAfter {
        HookInvariants.RestartKeeps(View(), spawn, now);
        StartSupervisor(spawn, now);
      }
    }

    method StartSupervisor(spawn: Spawn, now: int)
      modifies this`connected, this`supervisorPid, this`restarts
      modifies this`supervisorFailed, this`lastError, this`restartAfter
      ensures View() == Restart(old(View()), spawn, now)
    {
      match spawn
      case Spawned(pid) =>
        connected, supervisorPid := true, pid;
        restarts := restarts + 1;
        supervisorFailed := false;
      case SpawnFailed(error) =>
        lastError := error;
        restartAfter := now + options.restartDelay;
    }

    method PopCompletion() returns (d: Delivery)
      requires completions != []
      modifies this`completions
      ensures d == old(completions)[0] && View() == Deliver(old(View()))
    {
      d := completions[0];
      completions := completions[1..];
    }

    method LaunchLoop(outcomes: seq<SendOutcome>, now: int, gone: bool)
      requires Valid() && nextJobId + |outcomes| < U64_LIMIT
      modifies this
      ensures View() == LaunchRounds(old(View()), outcomes, now, gone) && Valid()
    {
      hide HookInvariants.Inv, Choose, Launch, Backpressured;
      var n := 0;
      assert outcomes[0..] == outcomes;
      while n < |outcomes| && !stopping && !supervisorFailed && |critical| + |normal| > 0
            && |children| < options.maxConcurrent
        invariant 0 <= n <= |outcomes| && Valid() && nextJobId + |outcomes| - n < U64_LIMIT
        invariant LaunchRounds(View(), outcomes[n..], now, gone) == LaunchRounds(old(View()), outcomes, now, gone)
        decreases |outcomes| - n
      {
        assert outcomes[n..][1..] == outcomes[n + 1..];
        if Choose(View()).Chosen? {
          HookInvariants.LaunchKeeps(View(), outcomes[n], now, gone);
          HookExecutorFacts.LaunchNumbers(View(), outcomes[n], now, gone);
        }
        var more, _ := LaunchNext(outcomes[n], now, gone);
        if !more {
          return;
        }
        n := n + 1;
      }
    }

    /** One iteration of the worker under the mutex, up to the delivery of callbacks. */
    method RunOnce(spawn: Spawn, outcomes: seq<SendOutcome>, inbox: seq<Incoming>, now: int, gone: bool)
      requires Valid() && (spawn.Spawned? ==> spawn.pid > 0) && nextJobId + |outcomes| < U64_LIMIT
      modifies this
      ensures View() == Iterate(old(View()), spawn, outcomes, inbox, now, gone) && Valid()
    {
      hide HookInvariants.Inv, HookState.ReapAndExpire, Restart, LaunchRounds;
      RestartIfDue(spawn, now);
      HookExecutorFacts.RestartNumbers(old(View()), spawn, now);
      LaunchLoop(outcomes, now, gone);
      HookInvariants.ReapAndExpireKeeps(View(), inbox, now, gone);
      ReapAndExpire(inbox, now, gone);
    }
  }
}
