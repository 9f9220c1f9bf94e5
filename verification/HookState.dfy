/**
 The hook executor's state as a value, and its critical sections as functions on that value.

 `submitted_` numbers the submissions, so the number of a submission (its ticket) identifies
 the job for ever. The `ledger` records what has become of every ticket; `launches` lists the
 tickets in launch order (job id `k` is `launches[k - 1]`); `posted` lists every callback ever
 queued, of which `completions` is the part not yet delivered; `signals` lists the signals the
 executor sent to the process groups of its children. These four are history: no decision reads them.
 */
module HookState {
  import opened HookCodec

  const E2BIG: int := 7
  const EINVAL: int := 22
  const EPIPE: int := 32
  const ETIMEDOUT: int := 110
  const ECANCELED: int := 125

  datatype Priority = Normal | Critical

  datatype Submission = Submission(argv: seq<Argument>, priority: Priority, serialKey: string,
                                   coalesceKey: string, hasCallback: bool)

  datatype Job = Job(ticket: nat, request: Submission)

  datatype Child = Child(jobId: nat, pid: int, started: int, terminated: int,
                         timedOut: bool, sentKill: bool, job: Job)

  datatype HookResult = HookResult(argv: seq<Argument>, processId: int, exitCode: int,
                                   termSignal: int, execErrno: int, timedOut: bool)

  datatype Delivery = Delivery(ticket: nat, result: HookResult)

  /** A wait status as `WIFEXITED` and `WIFSIGNALED` see it. */
  datatype WaitStatus = Exited(code: int) | Signaled(signal: int) | OtherStatus

  datatype Response =
    | Launched(jobId: nat, pid: int)
    | Finished(jobId: nat, pid: int, status: WaitStatus, execErrno: int)

  datatype Cause = OwnResponse | SupervisorLost

  datatype Fate =
    | Rejected
    | Pending
    | Running(jobId: nat)
    | Superseded
    | Evicted
    | LaunchFailed(error: int)
    | Done(finishedId: nat, cause: Cause, result: HookResult)
    | Discarded

  datatype Entry = Entry(job: Job, fate: Fate)

  /** What the executor signals: a SIGTERM, the SIGKILL of the escalation, the SIGKILL when the supervisor is lost. */
  datatype Action = Terminate | Kill | LossKill

  datatype Signal = Signal(jobId: nat, action: Action, at: int)

  datatype Options = Options(maxConcurrent: nat, maxPending: nat, timeout: int,
                             terminateGrace: int, restartDelay: int, responseTimeout: int)

  datatype Exec = Exec(
    options: Options,
    critical: seq<Job>, normal: seq<Job>, children: seq<Child>, completions: seq<Delivery>,
    stopping: bool, connected: bool, supervisorPid: int, supervisorFailed: bool,
    nextJobId: nat, restartAfter: int,
    submitted: nat, completed: nat, timedOut: nat, failed: nat, dropped: nat, coalesced: nat,
    backpressure: nat, restarts: nat, lastError: int,
    ledger: seq<Entry>, launches: seq<nat>, posted: seq<Delivery>, signals: seq<Signal>)

  /** What happened to a `send` on the nonblocking supervisor socket. */
  datatype SendOutcome = Sent | WouldBlock | SendFailed(error: int)

  predicate ValidOptions(o: Options) {
    && o.maxConcurrent > 0 && o.maxPending > 0 && o.timeout > 0 && o.terminateGrace >= 0
    && o.restartDelay >= 0 && o.responseTimeout > 0
  }

  function Init(options: Options, supervisorPid: int): Exec {
    Exec(options, [], [], [], [], false, true, supervisorPid, false, 1, 0,
         0, 0, 0, 0, 0, 0, 0, 0, 0, [], [], [], [])
  }

  // ---- Queues ----

  function PendingCount(e: Exec): nat {
    |e.critical| + |e.normal|
  }

  function Queue(e: Exec, p: Priority): seq<Job> {
    if p.Critical? then e.critical else e.normal
  }

  function WithQueue(e: Exec, p: Priority, q: seq<Job>): Exec {
    if p.Critical? then e.(critical := q) else e.(normal := q)
  }

  function RemoveAt<T>(s: seq<T>, i: nat): seq<T>
    requires i < |s|
  {
    s[..i] + s[i + 1..]
  }

  /** What a queue search looks for. */
  datatype Want = Runnable(children: seq<Child>) | SameKey(key: string) | Coalescible

  predicate Blocked(key: string, children: seq<Child>) {
    key != "" && exists i :: 0 <= i < |children| && children[i].job.request.serialKey == key
  }

  predicate Matches(want: Want, job: Job) {
    match want
    case Runnable(children) => !Blocked(job.request.serialKey, children)
    case SameKey(key) => job.request.coalesceKey == key
    case Coalescible => job.request.coalesceKey != ""
  }

  /** The first position whose job matches, or the length of the queue. */
  function First(queue: seq<Job>, want: Want): (i: nat)
    ensures i <= |queue|
    ensures forall k :: 0 <= k < i ==> !Matches(want, queue[k])
    ensures i < |queue| ==> Matches(want, queue[i])
  {
    if queue == [] || Matches(want, queue[0]) then 0 else 1 + First(queue[1..], want)
  }

  lemma FirstIsUnique(queue: seq<Job>, want: Want, i: nat)
    requires i <= |queue|
    requires forall k :: 0 <= k < i ==> !Matches(want, queue[k])
    requires i < |queue| ==> Matches(want, queue[i])
    ensures i == First(queue, want)
  {
  }

  // ---- Results and callbacks ----

  function Unlaunched(argv: seq<Argument>, error: int): HookResult {
    HookResult(argv, -1, -1, 0, error, false)
  }

  function ResultOf(child: Child, status: WaitStatus, execErrno: int): HookResult {
    HookResult(child.job.request.argv, child.pid,
               if status.Exited? then status.code else -1,
               if status.Signaled? then status.signal else 0,
               execErrno, child.timedOut)
  }

  predicate Unsuccessful(result: HookResult) {
    result.execErrno != 0 || result.exitCode != 0 || result.termSignal != 0
  }

  function Mark(e: Exec, ticket: nat, fate: Fate): Exec {
    if ticket < |e.ledger| then e.(ledger := e.ledger[ticket := e.ledger[ticket].(fate := fate)]) else e
  }

  function Post(e: Exec, job: Job, result: HookResult): Exec {
    if job.request.hasCallback then
      e.(completions := e.completions + [Delivery(job.ticket, result)],
         posted := e.posted + [Delivery(job.ticket, result)])
    else e
  }

  // ---- Submission ----

  predicate WellFormedArgv(argv: seq<Argument>) {
    argv != [] && argv[0] != [] && forall i :: 0 <= i < |argv| ==> 0 !in argv[i]
  }

  function Reject(e: Exec, s: Submission): Exec {
    e.(submitted := e.submitted + 1, dropped := e.dropped + 1,
       ledger := e.ledger + [Entry(Job(e.submitted, s), Rejected)])
  }

  function Enqueue(e: Exec, s: Submission): Exec {
    var job := Job(e.submitted, s);
    WithQueue(e, s.priority, Queue(e, s.priority) + [job])
      .(submitted := e.submitted + 1, ledger := e.ledger + [Entry(job, Pending)])
  }

  /** The error reported for a job that leaves its queue without having been launched. */
  function WithdrawalError(fate: Fate): int {
    if fate.LaunchFailed? then fate.error else ECANCELED
  }

  /**
   A pending job leaves its queue unlaunched: replaced by a newer submission, evicted to make
   room, or failed at launch. The counter of that fate moves and its callback is queued.
   */
  function Withdraw(e: Exec, p: Priority, i: nat, fate: Fate): Exec
    requires i < |Queue(e, p)|
  {
    var job := Queue(e, p)[i];
    Post(Mark(WithQueue(e, p, RemoveAt(Queue(e, p), i))
                .(coalesced := e.coalesced + if fate.Superseded? then 1 else 0,
                  dropped := e.dropped + if fate.Evicted? then 1 else 0,
                  completed := e.completed + if fate.LaunchFailed? then 1 else 0,
                  failed := e.failed + if fate.LaunchFailed? && fate.error != 0 then 1 else 0),
              job.ticket, fate),
         job, Unlaunched(job.request.argv, WithdrawalError(fate)))
  }

  function Submit(e: Exec, s: Submission): Exec {
    if e.stopping then Reject(e, s)
    else if s.coalesceKey != "" && First(e.critical, SameKey(s.coalesceKey)) < |e.critical| then
      Enqueue(Withdraw(e, Critical, First(e.critical, SameKey(s.coalesceKey)), Superseded), s)
    else if s.coalesceKey != "" && First(e.normal, SameKey(s.coalesceKey)) < |e.normal| then
      Enqueue(Withdraw(e, Normal, First(e.normal, SameKey(s.coalesceKey)), Superseded), s)
    else if PendingCount(e) < e.options.maxPending then Enqueue(e, s)
    else if s.priority.Critical? && First(e.normal, Coalescible) < |e.normal| then
      Enqueue(Withdraw(e, Normal, First(e.normal, Coalescible), Evicted), s)
    else Reject(e, s)
  }

  predicate Accepted(e: Exec, s: Submission) {
    var e' := Submit(e, s);
    |e'.ledger| > |e.ledger| && e'.ledger[|e.ledger|].fate.Pending?
  }

  // ---- Finishing ----

  function Finish(e: Exec, i: nat, status: WaitStatus, execErrno: int, cause: Cause): Exec
    requires i < |e.children|
  {
    var child := e.children[i];
    var result := ResultOf(child, status, execErrno);
    Post(Mark(e.(children := RemoveAt(e.children, i),
                 completed := e.completed + 1,
                 timedOut := e.timedOut + if result.timedOut then 1 else 0,
                 failed := e.failed + if Unsuccessful(result) then 1 else 0),
              child.job.ticket, Done(child.jobId, cause, result)),
         child.job, result)
  }

  /** A child whose pid is known is killed before the loss of its supervisor finishes it. */
  function KillLost(e: Exec, now: int): Exec
    requires e.children != []
  {
    var c := e.children[0];
    if c.pid > 0 then e.(signals := e.signals + [Signal(c.jobId, LossKill, now)]) else e
  }

  function FinishAll(e: Exec, failure: int, now: int): (r: Exec)
    ensures r.children == []
    decreases |e.children|
  {
    if e.children == [] then e
    else FinishAll(Finish(KillLost(e, now), 0, Exited(127), failure, SupervisorLost), failure, now)
  }

  function ReapSupervisor(e: Exec, gone: bool): Exec {
    if e.supervisorPid > 0 && gone then e.(supervisorPid := -1) else e
  }

  function FailSupervisor(e: Exec, error: int, now: int, gone: bool): Exec {
    if e.supervisorFailed then e
    else
      var failure := if error == 0 then EPIPE else error;
      var e1 := ReapSupervisor(e.(supervisorFailed := true, lastError := failure, connected := false), gone);
      var e2 := FinishAll(e1, failure, now);
      if e2.stopping then e2 else e2.(restartAfter := now + e2.options.restartDelay)
  }

  // ---- Launching ----

  /** The queue and position of the next job to launch. */
  datatype Choice = NoJob | Chosen(priority: Priority, index: nat)

  function Choose(e: Exec): (c: Choice)
    ensures c.Chosen? ==> c.index < |Queue(e, c.priority)|
  {
    var want := Runnable(e.children);
    if First(e.critical, want) < |e.critical| then Chosen(Critical, First(e.critical, want))
    else if First(e.normal, want) < |e.normal| then Chosen(Normal, First(e.normal, want))
    else NoJob
  }

  function Requeue(e: Exec, p: Priority, i: nat): Exec
    requires i < |Queue(e, p)|
  {
    WithQueue(e, p, [Queue(e, p)[i]] + RemoveAt(Queue(e, p), i)).(backpressure := e.backpressure + 1)
  }

  function Start(e: Exec, p: Priority, i: nat, now: int): Exec
    requires i < |Queue(e, p)|
  {
    var job := Queue(e, p)[i];
    Mark(WithQueue(e, p, RemoveAt(Queue(e, p), i))
           .(nextJobId := e.nextJobId + 1,
             children := e.children + [Child(e.nextJobId, -1, now, 0, false, false, job)],
             launches := e.launches + [job.ticket]),
         job.ticket, Running(e.nextJobId))
  }

  function Launch(e: Exec, p: Priority, i: nat, outcome: SendOutcome, now: int, gone: bool): Exec
    requires i < |Queue(e, p)|
  {
    if !Fits(Queue(e, p)[i].request.argv) then Withdraw(e, p, i, LaunchFailed(E2BIG))
    else match outcome
      case Sent => Start(e, p, i, now)
      case WouldBlock => Requeue(e, p, i)
      case SendFailed(error) =>
        var failure := if error == 0 then EPIPE else error;
        FailSupervisor(Withdraw(e, p, i, LaunchFailed(failure)), failure, now, gone)
  }

  predicate MayLaunch(e: Exec) {
    !e.stopping && !e.supervisorFailed && PendingCount(e) > 0 && |e.children| < e.options.maxConcurrent
  }

  predicate Backpressured(e: Exec, c: Choice, outcome: SendOutcome)
    requires c.Chosen? && c.index < |Queue(e, c.priority)|
  {
    Fits(Queue(e, c.priority)[c.index].request.argv) && outcome.WouldBlock?
  }

  /** The worker's launch loop, given the outcomes of the sends it makes. */
  function LaunchRounds(e: Exec, outcomes: seq<SendOutcome>, now: int, gone: bool): Exec
    decreases |outcomes|
  {
    var c := Choose(e);
    if outcomes == [] || !MayLaunch(e) || c.NoJob? then e
    else
      var e' := Launch(e, c.priority, c.index, outcomes[0], now, gone);
      if Backpressured(e, c, outcomes[0]) then e' else LaunchRounds(e', outcomes[1..], now, gone)
  }

  // ---- Supervisor results ----

  function IndexOf(children: seq<Child>, jobId: nat): (i: nat)
    ensures i <= |children|
    ensures forall k :: 0 <= k < i ==> children[k].jobId != jobId
    ensures i < |children| ==> children[i].jobId == jobId
  {
    if children == [] || children[0].jobId == jobId then 0 else 1 + IndexOf(children[1..], jobId)
  }

  function SetPid(e: Exec, i: nat, pid: int): Exec
    requires i < |e.children|
  {
    e.(children := e.children[i := e.children[i].(pid := pid)])
  }

  function Receive(e: Exec, response: Response): Exec {
    var i := IndexOf(e.children, response.jobId);
    if i == |e.children| then e
    else match response
      case Launched(_, pid) => SetPid(e, i, pid)
      case Finished(_, pid, status, execErrno) =>
        var e' := if e.children[i].pid < 0 then SetPid(e, i, pid) else e;
        Finish(e', i, status, execErrno, OwnResponse)
  }

  /** One `recv`: a response, an interruption, nothing to read, or a broken stream. */
  datatype Incoming = Message(response: Response) | Interrupted | Empty | Broken(error: int)

  function ReceiveAll(e: Exec, inbox: seq<Incoming>, now: int, gone: bool): Exec
    decreases |inbox|
  {
    if !e.connected || inbox == [] then e
    else match inbox[0]
      case Empty => e
      case Interrupted => ReceiveAll(e, inbox[1..], now, gone)
      case Broken(error) => FailSupervisor(e, error, now, gone)
      case Message(response) => ReceiveAll(Receive(e, response), inbox[1..], now, gone)
  }

  // ---- Expiry and kill escalation ----

  function Escalate(e: Exec, i: nat, action: Action, now: int): Exec
    requires i < |e.children| && !action.LossKill?
  {
    var c := e.children[i];
    e.(children := e.children[i := if action.Terminate? then c.(timedOut := true, terminated := now)
                                   else c.(sentKill := true)],
       signals := e.signals + [Signal(c.jobId, action, now)])
  }

  function ExpireChild(e: Exec, i: nat, now: int): (r: Exec)
    requires i < |e.children|
    ensures |r.children| == |e.children|
  {
    var c := e.children[i];
    if c.pid > 0 && !c.timedOut && (e.stopping || now - c.started >= e.options.timeout) then
      Escalate(e, i, Terminate, now)
    else if c.timedOut && !c.sentKill && now - c.terminated >= e.options.terminateGrace then
      Escalate(e, i, Kill, now)
    else e
  }

  function ExpireFrom(e: Exec, i: nat, now: int, gone: bool): Exec
    decreases |e.children| - i
  {
    if i >= |e.children| then e
    else if e.children[i].pid < 0 && now - e.children[i].started >= e.options.responseTimeout then
      FailSupervisor(e, ETIMEDOUT, now, gone)
    else ExpireFrom(ExpireChild(e, i, now), i + 1, now, gone)
  }

  function TerminateFrom(e: Exec, i: nat, now: int): Exec
    decreases |e.children| - i
  {
    if i >= |e.children| then e
    else
      var c := e.children[i];
      TerminateFrom(if c.pid > 0 && !c.timedOut then Escalate(e, i, Terminate, now) else e, i + 1, now)
  }

  function DiscardAll(ledger: seq<Entry>): (l: seq<Entry>)
    ensures |l| == |ledger|
    ensures forall t :: 0 <= t < |l| ==>
              l[t] == if ledger[t].fate.Pending? then ledger[t].(fate := Discarded) else ledger[t]
  {
    if ledger == [] then []
    else [if ledger[0].fate.Pending? then ledger[0].(fate := Discarded) else ledger[0]] + DiscardAll(ledger[1..])
  }

  function Stop(e: Exec, now: int): Exec {
    TerminateFrom(e.(stopping := true, dropped := e.dropped + PendingCount(e), critical := [], normal := [],
                     ledger := DiscardAll(e.ledger)),
                  0, now)
  }

  // ---- Restart ----

  predicate MayRestart(e: Exec, now: int) {
    !e.stopping && e.supervisorFailed && e.supervisorPid <= 0 && now >= e.restartAfter
  }

  /** `start_supervisor` either spawns a process or reports an error. */
  datatype Spawn = Spawned(pid: nat) | SpawnFailed(error: int)

  function Restart(e: Exec, spawn: Spawn, now: int): Exec {
    match spawn
    case Spawned(pid) =>
      e.(connected := true, supervisorPid := pid, restarts := e.restarts + 1, supervisorFailed := false)
    case SpawnFailed(error) => e.(lastError := error, restartAfter := now + e.options.restartDelay)
  }

  function ReapAndExpire(e: Exec, inbox: seq<Incoming>, now: int, gone: bool): Exec {
    var e1 := ReceiveAll(e, inbox, now, gone);
    ExpireFrom(if e1.supervisorFailed then ReapSupervisor(e1, gone) else e1, 0, now, gone)
  }

  /** One iteration of the worker under the mutex, up to the delivery of callbacks. */
  function Iterate(e: Exec, spawn: Spawn, outcomes: seq<SendOutcome>, inbox: seq<Incoming>,
                   now: int, gone: bool): Exec
  {
    var e1 := if MayRestart(e, now) then Restart(e, spawn, now) else e;
    ReapAndExpire(LaunchRounds(e1, outcomes, now, gone), inbox, now, gone)
  }

  function Deliver(e: Exec): Exec {
    if e.completions == [] then e else e.(completions := e.completions[1..])
  }
}
