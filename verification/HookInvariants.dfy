/**
 What every critical section of the hook executor keeps.

 The invariant has one part for each question the executor must answer: what waits, what may be
 admitted, what runs, what was launched, who was called back and what the counters say. Every
 section is proved part by part from the bookkeeping facts of `HookLedger`; the last lemma of each
 group puts the parts together.
 */
module HookInvariants {
  import HookCodec
  import opened HookState
  import opened HookLedger

  // ---- The invariant ----

  ghost predicate QueuesOk(e: Exec) {
    && QueueFiled(e.ledger, e.critical, Critical) && QueueFiled(e.ledger, e.normal, Normal)
    && QueueDistinct(e.critical) && QueueDistinct(e.normal)
    && QueueOrdered(e.critical) && QueueOrdered(e.normal)
    && PendingFound(e.ledger, e.critical, e.normal)
  }

  ghost predicate AdmissionOk(e: Exec) {
    && KeysUnique(e.critical) && KeysUnique(e.normal) && KeysDisjoint(e.critical, e.normal)
    && PendingCount(e) <= e.options.maxPending
    && CriticalKept(e.ledger)
  }

  ghost predicate ChildrenOk(e: Exec) {
    && ChildrenFiled(e.ledger, e.children, e.launches) && ChildrenDistinct(e.children)
    && SerialExclusive(e.children) && RunningFound(e.ledger, e.children)
    && |e.children| <= e.options.maxConcurrent
  }

  ghost predicate LaunchesOk(e: Exec) {
    && e.nextJobId == |e.launches| + 1
    && LaunchesFiled(e.ledger, e.launches) && LaunchesOrdered(e.ledger, e.launches)
    && LaunchesPrecede(e.ledger, e.launches, e.critical) && LaunchesPrecede(e.ledger, e.launches, e.normal)
  }

  ghost predicate CallbacksOk(e: Exec) {
    && PostedSound(e.ledger, e.posted) && PostedDistinct(e.posted) && PostedComplete(e.ledger, e.posted)
    && Suffix(e.completions, e.posted)
  }

  /** Each published counter is the number of tickets that met the fates it reports. */
  ghost predicate CountersOk(e: Exec) {
    && e.submitted == |e.ledger|
    && PendingCount(e) == Count(e.ledger, Queued)
    && |e.children| == Count(e.ledger, InFlight)
    && e.completed == Count(e.ledger, CompletedJobs)
    && e.timedOut == Count(e.ledger, TimedOutJobs)
    && e.failed == Count(e.ledger, FailedJobs)
    && e.dropped == Count(e.ledger, DroppedJobs)
    && e.coalesced == Count(e.ledger, CoalescedJobs)
  }

  ghost predicate Core(e: Exec) {
    && ValidOptions(e.options) && LedgerOk(e.ledger)
    && QueuesOk(e) && AdmissionOk(e) && ChildrenOk(e) && LaunchesOk(e) && CallbacksOk(e) && CountersOk(e)
  }

  /** While the supervisor is down no job is in flight. */
  ghost predicate DownMeansIdle(e: Exec) {
    e.supervisorFailed ==> e.children == []
  }

  ghost predicate Inv(e: Exec) {
    Core(e) && DownMeansIdle(e)
  }

  lemma InitKeeps(options: Options, pid: int)
    requires ValidOptions(options)
    ensures Inv(Init(options, pid))
  {
    InitParts(options, pid);
    hide QueuesOk, AdmissionOk, ChildrenOk, LaunchesOk, CallbacksOk;
  }

  lemma InitParts(options: Options, pid: int)
    ensures var e := Init(options, pid);
            QueuesOk(e) && AdmissionOk(e) && ChildrenOk(e) && LaunchesOk(e) && CallbacksOk(e)
  {
    hide Filed, SameLine, HasChild, WasLaunched, Due, DueResult, IsPosted;
    NothingYet(Init(options, pid));
    hide QueuesOk, ChildrenOk, CallbacksOk;
  }

  lemma NothingYet(e: Exec)
    requires e.critical == [] && e.normal == [] && e.ledger == [] && e.children == []
    requires e.posted == [] && e.completions == []
    ensures QueuesOk(e) && ChildrenOk(e) && CallbacksOk(e)
  {
    hide Filed, SameLine, HasChild, Due, DueResult, IsPosted;
  }

  // ---- Frames: each part of the invariant reads only some of the state ----

  lemma QueuesFrame(e: Exec, e': Exec)
    requires QueuesOk(e) && e'.ledger == e.ledger && e'.critical == e.critical && e'.normal == e.normal
    ensures QueuesOk(e')
  {
  }

  lemma AdmissionFrame(e: Exec, e': Exec)
    requires AdmissionOk(e) && e'.ledger == e.ledger && e'.critical == e.critical && e'.normal == e.normal
    requires e'.options == e.options
    ensures AdmissionOk(e')
  {
  }

  lemma LaunchesFrame(e: Exec, e': Exec)
    requires LaunchesOk(e) && e'.ledger == e.ledger && e'.critical == e.critical && e'.normal == e.normal
    requires e'.launches == e.launches && e'.nextJobId == e.nextJobId
    ensures LaunchesOk(e')
  {
  }

  lemma CallbacksFrame(e: Exec, e': Exec)
    requires CallbacksOk(e) && e'.ledger == e.ledger && e'.posted == e.posted && e'.completions == e.completions
    ensures CallbacksOk(e')
  {
  }

  // ---- Appending to the ledger: Reject and Enqueue ----

  lemma AppendKeepsCounters(e: Exec, entry: Entry)
    requires CountersOk(e) && LedgerOk(e.ledger)
    ensures forall tally :: Count(e.ledger + [entry], tally) == Count(e.ledger, tally) + One(Holds(tally, entry.fate))
  {
    forall tally ensures Count(e.ledger + [entry], tally) == Count(e.ledger, tally) + One(Holds(tally, entry.fate)) {
      CountAppend(e.ledger, entry, tally);
    }
  }

  lemma RejectKeeps(e: Exec, s: Submission)
    requires Core(e)
    ensures Core(Reject(e, s))
  {
    hide Count, Holds;
    var entry := Entry(Job(e.submitted, s), Rejected);
    AppendKeeps(e.ledger, entry, e.critical, Critical);
    AppendKeeps(e.ledger, entry, e.normal, Normal);
    AppendKeepsChildren(e.ledger, entry, e.children, e.launches);
    AppendKeepsLaunches(e.ledger, entry, e.launches, e.critical);
    AppendKeepsLaunches(e.ledger, entry, e.launches, e.normal);
    AppendKeepsPosted(e.ledger, entry, e.posted);
    hide QueueFiled, QueueDistinct, QueueOrdered, ChildrenFiled, ChildrenDistinct, SerialExclusive;
    hide RunningFound;
    hide LaunchesFiled, LaunchesOrdered, LaunchesPrecede, PostedSound, PostedComplete, PostedDistinct, Suffix;
    hide KeysUnique, KeysDisjoint;
    RejectCounters(e, s);
  }

  lemma RejectCounters(e: Exec, s: Submission)
    requires CountersOk(e) && LedgerOk(e.ledger)
    ensures CountersOk(Reject(e, s))
  {
    AppendKeepsCounters(e, Entry(Job(e.submitted, s), Rejected));
    hide Count;
  }

  /** No pending job holds the coalesce key of `s`. */
  ghost predicate KeyIsFree(e: Exec, s: Submission) {
    s.coalesceKey != "" ==>
      && (forall i :: 0 <= i < |e.critical| ==> e.critical[i].request.coalesceKey != s.coalesceKey)
      && (forall i :: 0 <= i < |e.normal| ==> e.normal[i].request.coalesceKey != s.coalesceKey)
  }

  lemma EnqueueQueues(e: Exec, s: Submission)
    requires LedgerOk(e.ledger) && QueuesOk(e) && e.submitted == |e.ledger|
    ensures QueuesOk(Enqueue(e, s))
  {
    var job := Job(e.submitted, s);
    var p := s.priority;
    PushBack(e.ledger, Queue(e, p), job);
    if p.Critical? {
      AppendKeeps(e.ledger, Entry(job, Pending), e.normal, Normal);
    } else {
      AppendKeeps(e.ledger, Entry(job, Pending), e.critical, Critical);
    }
    hide QueueFiled, QueueDistinct, QueueOrdered;
    var e' := Enqueue(e, s);
    assert Queue(e', p)[|Queue(e, p)|] == job;
    forall t | 0 <= t < |e'.ledger| && e'.ledger[t].fate.Pending?
      ensures e'.ledger[t].job in e'.critical || e'.ledger[t].job in e'.normal {
      if t < |e.ledger| {
        assert e.ledger[t].job in e.critical || e.ledger[t].job in e.normal;
      }
    }
  }

  lemma EnqueueAdmission(e: Exec, s: Submission)
    requires AdmissionOk(e) && KeyIsFree(e, s) && PendingCount(e) < e.options.maxPending
    ensures AdmissionOk(Enqueue(e, s))
  {
  }

  lemma EnqueueOthers(e: Exec, s: Submission)
    requires e.submitted == |e.ledger| && LedgerOk(e.ledger) && ChildrenOk(e) && LaunchesOk(e) && CallbacksOk(e)
    ensures ChildrenOk(Enqueue(e, s)) && LaunchesOk(Enqueue(e, s)) && CallbacksOk(Enqueue(e, s))
  {
    var job := Job(e.submitted, s);
    var entry := Entry(job, Pending);
    AppendKeepsChildren(e.ledger, entry, e.children, e.launches);
    AppendKeepsLaunches(e.ledger, entry, e.launches, e.critical);
    AppendKeepsLaunches(e.ledger, entry, e.launches, e.normal);
    PushBackPrecede(e.ledger, e.launches, Queue(e, s.priority), job);
    AppendKeepsPosted(e.ledger, entry, e.posted);
    hide ChildrenFiled, ChildrenDistinct, SerialExclusive, RunningFound;
    hide LaunchesFiled, LaunchesOrdered, LaunchesPrecede, PostedSound, PostedComplete, PostedDistinct, Suffix;
  }

  lemma EnqueueCounters(e: Exec, s: Submission)
    requires CountersOk(e) && LedgerOk(e.ledger)
    ensures CountersOk(Enqueue(e, s))
  {
    AppendKeepsCounters(e, Entry(Job(e.submitted, s), Pending));
    hide Count;
  }

  lemma EnqueueKeeps(e: Exec, s: Submission)
    requires Core(e) && KeyIsFree(e, s) && PendingCount(e) < e.options.maxPending
    ensures Core(Enqueue(e, s))
  {
    hide QueuesOk, AdmissionOk, ChildrenOk, LaunchesOk, CallbacksOk;
    assert e.submitted == |e.ledger|;
    hide CountersOk;
    EnqueueQueues(e, s);
    EnqueueAdmission(e, s);
    EnqueueOthers(e, s);
    EnqueueCounters(e, s);
  }

  // ---- Withdraw ----

  ghost predicate Withdrawal(fate: Fate) {
    fate.Superseded? || fate.Evicted? || fate.LaunchFailed?
  }

  lemma QueuedJob(e: Exec, p: Priority, i: nat)
    requires QueuesOk(e) && i < |Queue(e, p)|
    ensures var job := Queue(e, p)[i];
            job.ticket < |e.ledger| && e.ledger[job.ticket] == Entry(job, Pending) && job.request.priority == p
  {
    assert Filed(e.ledger, Queue(e, p)[i], Pending);
  }

  /** The queues after job `i` of class `p` has left and its ticket is no longer pending. */
  lemma LeaveQueue(e: Exec, p: Priority, i: nat, fate: Fate)
    requires LedgerOk(e.ledger) && QueuesOk(e) && i < |Queue(e, p)| && !fate.Pending?
    ensures QueuesOk(Mark(WithQueue(e, p, RemoveAt(Queue(e, p), i)), Queue(e, p)[i].ticket, fate))
  {
    QueuedJob(e, p, i);
    var q, t := Queue(e, p), Queue(e, p)[i].ticket;
    var other, o := if p.Critical? then Normal else Critical, if p.Critical? then e.normal else e.critical;
    RemoveKeepsQueue(e.ledger, q, p, i);
    MarkKeepsQueue(e.ledger, t, fate, RemoveAt(q, i), p);
    NotQueued(e.ledger, o, other, t);
    MarkKeepsQueue(e.ledger, t, fate, o, other);
    RemoveMembers(q, i);
    if p.Critical? {
      MarkKeepsPendingFound(e.ledger, t, fate, e.critical, e.normal, RemoveAt(q, i), e.normal);
    } else {
      MarkKeepsPendingFound(e.ledger, t, fate, e.critical, e.normal, e.critical, RemoveAt(q, i));
    }
    hide QueueFiled, QueueDistinct, QueueOrdered, PendingFound, RemoveAt;
  }

  predicate SameQueues(e: Exec, e': Exec) {
    e'.ledger == e.ledger && e'.critical == e.critical && e'.normal == e.normal && e'.options == e.options
  }

  lemma PostFrame(e: Exec, job: Job, result: HookResult)
    ensures SameQueues(e, Post(e, job, result))
  {
  }

  lemma MarkFrame(e: Exec, e': Exec, t: nat, fate: Fate)
    requires SameQueues(e, e')
    ensures SameQueues(Mark(e, t, fate), Mark(e', t, fate))
  {
  }

  /** Withdrawing touches the queues only by removing the job and marking its entry. */
  lemma WithdrawFrame(e: Exec, p: Priority, i: nat, fate: Fate)
    requires i < |Queue(e, p)|
    ensures var e' := Withdraw(e, p, i, fate);
            var e1 := Mark(WithQueue(e, p, RemoveAt(Queue(e, p), i)), Queue(e, p)[i].ticket, fate);
            SameQueues(e1, e')
  {
    hide RemoveAt, Unlaunched, WithdrawalError, Mark, Post;
    var job, q := Queue(e, p)[i], RemoveAt(Queue(e, p), i);
    var e1 := WithQueue(e, p, q);
    var e2 := e1.(coalesced := e.coalesced + if fate.Superseded? then 1 else 0,
                  dropped := e.dropped + if fate.Evicted? then 1 else 0,
                  completed := e.completed + if fate.LaunchFailed? then 1 else 0,
                  failed := e.failed + if fate.LaunchFailed? && fate.error != 0 then 1 else 0);
    MarkFrame(e1, e2, job.ticket, fate);
    PostFrame(Mark(e2, job.ticket, fate), job, Unlaunched(job.request.argv, WithdrawalError(fate)));
  }

  lemma WithdrawQueues(e: Exec, p: Priority, i: nat, fate: Fate)
    requires LedgerOk(e.ledger) && QueuesOk(e) && i < |Queue(e, p)| && Withdrawal(fate)
    ensures QueuesOk(Withdraw(e, p, i, fate)) && LedgerOk(Withdraw(e, p, i, fate).ledger)
  {
    var e1 := Mark(WithQueue(e, p, RemoveAt(Queue(e, p), i)), Queue(e, p)[i].ticket, fate);
    LeaveQueue(e, p, i, fate);
    assert LedgerOk(e1.ledger) by { hide QueuesOk; }
    WithdrawFrame(e, p, i, fate);
    hide QueuesOk, RemoveAt, Withdraw, Mark, WithQueue;
    QueuesFrame(e1, Withdraw(e, p, i, fate));
  }

  lemma WithdrawAdmission(e: Exec, p: Priority, i: nat, fate: Fate)
    requires AdmissionOk(e) && QueuesOk(e) && i < |Queue(e, p)| && Withdrawal(fate)
    requires fate.LaunchFailed? || p.Normal? || Queue(e, p)[i].request.coalesceKey != ""
    ensures AdmissionOk(Withdraw(e, p, i, fate))
    ensures PendingCount(Withdraw(e, p, i, fate)) == PendingCount(e) - 1 < e.options.maxPending
  {
    QueuedJob(e, p, i);
    hide QueuesOk;
    RemoveKeepsKeys(Queue(e, p), i);
    RemoveKeepsDisjoint(e.critical, e.normal, i);
    assert |RemoveAt(Queue(e, p), i)| == |Queue(e, p)| - 1;
    MarkKeepsCritical(e.ledger, Queue(e, p)[i].ticket, fate);
    hide KeysUnique, KeysDisjoint, CriticalKept, RemoveAt;
  }

  lemma WithdrawChildren(e: Exec, p: Priority, i: nat, fate: Fate)
    requires QueuesOk(e) && i < |Queue(e, p)| && Withdrawal(fate) && ChildrenOk(e)
    ensures ChildrenOk(Withdraw(e, p, i, fate))
  {
    QueuedJob(e, p, i);
    var t := Queue(e, p)[i].ticket;
    MarkKeepsChildren(e.ledger, t, fate, e.children, e.launches);
    MarkKeepsRunningFound(e.ledger, t, fate, e.children);
    hide QueuesOk, RemoveAt, ChildrenFiled, ChildrenDistinct, SerialExclusive, RunningFound;
  }

  lemma WithdrawLaunches(e: Exec, p: Priority, i: nat, fate: Fate)
    requires QueuesOk(e) && i < |Queue(e, p)| && Withdrawal(fate) && LaunchesOk(e)
    ensures LaunchesOk(Withdraw(e, p, i, fate))
  {
    QueuedJob(e, p, i);
    var q, t := Queue(e, p), Queue(e, p)[i].ticket;
    MarkKeepsLaunches(e.ledger, t, fate, e.launches);
    MarkKeepsOrder(e.ledger, t, fate, e.launches, e.critical);
    MarkKeepsOrder(e.ledger, t, fate, e.launches, e.normal);
    RemoveKeepsPrecede(e.ledger[t := e.ledger[t].(fate := fate)], e.launches, q, i);
    hide QueuesOk, RemoveAt, LaunchesFiled, LaunchesOrdered, LaunchesPrecede;
  }

  lemma WithdrawCallbacks(e: Exec, p: Priority, i: nat, fate: Fate)
    requires QueuesOk(e) && i < |Queue(e, p)| && Withdrawal(fate) && CallbacksOk(e)
    ensures CallbacksOk(Withdraw(e, p, i, fate))
  {
    QueuedJob(e, p, i);
    var job := Queue(e, p)[i];
    SettleCallbacks(e, job, fate, Unlaunched(job.request.argv, WithdrawalError(fate)));
    hide QueuesOk, RemoveAt, PostedSound, PostedComplete, PostedDistinct, Suffix;
  }

  /** Giving a ticket a final fate and queueing its callback go together. */
  lemma SettleCallbacks(e: Exec, job: Job, fate: Fate, result: HookResult)
    requires CallbacksOk(e) && job.ticket < |e.ledger| && e.ledger[job.ticket].job == job
    requires !Due(e.ledger[job.ticket])
    requires Withdrawal(fate) || fate.Done?
    requires result == DueResult(Entry(job, fate))
    ensures CallbacksOk(Post(Mark(e, job.ticket, fate), job, result))
  {
    var t := job.ticket;
    if job.request.hasCallback {
      MarkPosts(e.ledger, t, fate, e.posted);
      SuffixAppend(e.completions, e.posted, Delivery(t, result));
    } else {
      MarkKeepsPosted(e.ledger, t, fate, e.posted);
    }
    hide PostedSound, PostedComplete, PostedDistinct, Suffix;
  }

  lemma MarkCounts(ledger: seq<Entry>, t: nat, fate: Fate)
    requires t < |ledger|
    ensures forall tally ::
              Count(ledger[t := ledger[t].(fate := fate)], tally) + One(Holds(tally, ledger[t].fate))
              == Count(ledger, tally) + One(Holds(tally, fate))
  {
    forall tally
      ensures Count(ledger[t := ledger[t].(fate := fate)], tally) + One(Holds(tally, ledger[t].fate))
              == Count(ledger, tally) + One(Holds(tally, fate)) {
      CountUpdate(ledger, t, ledger[t].(fate := fate), tally);
    }
  }

  lemma WithdrawCounters(e: Exec, p: Priority, i: nat, fate: Fate)
    requires QueuesOk(e) && i < |Queue(e, p)| && Withdrawal(fate) && CountersOk(e)
    ensures CountersOk(Withdraw(e, p, i, fate))
  {
    QueuedJob(e, p, i);
    MarkCounts(e.ledger, Queue(e, p)[i].ticket, fate);
    hide QueuesOk, Count;
  }

  /** Withdrawing a pending job touches neither the options nor the children nor the connection. */
  ghost predicate WithdrawalFrame(e: Exec, e': Exec) {
    && e'.options == e.options && e'.children == e.children && e'.stopping == e.stopping
    && e'.supervisorFailed == e.supervisorFailed
  }

  lemma WithdrawKeeps(e: Exec, p: Priority, i: nat, fate: Fate)
    requires Core(e) && i < |Queue(e, p)| && Withdrawal(fate)
    requires fate.LaunchFailed? || p.Normal? || Queue(e, p)[i].request.coalesceKey != ""
    ensures Core(Withdraw(e, p, i, fate))
    ensures PendingCount(Withdraw(e, p, i, fate)) == PendingCount(e) - 1 < e.options.maxPending
    ensures WithdrawalFrame(e, Withdraw(e, p, i, fate))
  {
    hide QueuesOk, AdmissionOk, ChildrenOk, LaunchesOk, CallbacksOk, CountersOk;
    WithdrawQueues(e, p, i, fate);
    WithdrawAdmission(e, p, i, fate);
    WithdrawChildren(e, p, i, fate);
    WithdrawLaunches(e, p, i, fate);
    WithdrawCallbacks(e, p, i, fate);
    WithdrawCounters(e, p, i, fate);
  }

  // ---- Requeue ----

  lemma RequeueQueues(e: Exec, p: Priority, i: nat)
    requires QueuesOk(e) && i < |Queue(e, p)| && FirstOfLine(Queue(e, p), i)
    ensures QueuesOk(Requeue(e, p, i))
  {
    var q := Queue(e, p);
    RequeueKeepsQueue(e.ledger, q, p, i);
    RequeueMembers(q, i);
    SameMembersFound(e, Requeue(e, p, i));
    hide QueueFiled, QueueDistinct, QueueOrdered, PendingFound, RemoveAt;
  }

  lemma SameMembersFound(e: Exec, e': Exec)
    requires PendingFound(e.ledger, e.critical, e.normal) && e'.ledger == e.ledger
    requires forall job :: (job in e.critical ==> job in e'.critical) && (job in e.normal ==> job in e'.normal)
    ensures PendingFound(e'.ledger, e'.critical, e'.normal)
  {
  }

  lemma RequeueOthers(e: Exec, p: Priority, i: nat)
    requires AdmissionOk(e) && ChildrenOk(e) && LaunchesOk(e) && i < |Queue(e, p)|
    ensures AdmissionOk(Requeue(e, p, i)) && ChildrenOk(Requeue(e, p, i)) && LaunchesOk(Requeue(e, p, i))
  {
    var q := Queue(e, p);
    RequeueKeepsKeys(e.critical, e.normal, i);
    RequeueKeepsPrecede(e.ledger, e.launches, q, i);
    ToFrontIndex(q, i);
    hide RemoveAt, LaunchesFiled, LaunchesOrdered, LaunchesPrecede, KeysUnique, KeysDisjoint, CriticalKept;
    hide ChildrenFiled, ChildrenDistinct, SerialExclusive, RunningFound;
  }

  lemma RequeueKeeps(e: Exec, p: Priority, i: nat)
    requires Core(e) && i < |Queue(e, p)| && FirstOfLine(Queue(e, p), i)
    ensures Core(Requeue(e, p, i))
  {
    hide QueuesOk, AdmissionOk, ChildrenOk, LaunchesOk, CallbacksOk, Count;
    RequeueQueues(e, p, i);
    RequeueOthers(e, p, i);
    ToFrontIndex(Queue(e, p), i);
    CallbacksFrame(e, Requeue(e, p, i));
  }

  // ---- Start ----

  lemma StartQueues(e: Exec, p: Priority, i: nat, now: int)
    requires LedgerOk(e.ledger) && QueuesOk(e) && i < |Queue(e, p)|
    ensures QueuesOk(Start(e, p, i, now)) && LedgerOk(Start(e, p, i, now).ledger)
  {
    LeaveQueue(e, p, i, Running(e.nextJobId));
    hide QueueFiled, QueueDistinct, QueueOrdered, PendingFound, RemoveAt;
  }

  lemma StartAdmission(e: Exec, p: Priority, i: nat, now: int)
    requires AdmissionOk(e) && i < |Queue(e, p)|
    ensures AdmissionOk(Start(e, p, i, now))
  {
    RemoveKeepsKeys(Queue(e, p), i);
    RemoveKeepsDisjoint(e.critical, e.normal, i);
    assert |RemoveAt(Queue(e, p), i)| == |Queue(e, p)| - 1;
    hide KeysUnique, KeysDisjoint, RemoveAt;
  }

  lemma StartChildren(e: Exec, p: Priority, i: nat, now: int)
    requires QueuesOk(e) && i < |Queue(e, p)| && ChildrenOk(e) && e.nextJobId == |e.launches| + 1
    requires !Blocked(Queue(e, p)[i].request.serialKey, e.children)
    requires |e.children| < e.options.maxConcurrent
    ensures ChildrenOk(Start(e, p, i, now))
  {
    QueuedJob(e, p, i);
    hide QueuesOk;
    var job := Queue(e, p)[i];
    var c := Child(e.nextJobId, -1, now, 0, false, false, job);
    StartKeepsChildren(e.ledger, e.children, e.launches, c);
    StartKeepsExclusion(e.children, c);
    hide RemoveAt, ChildrenFiled, ChildrenDistinct, SerialExclusive, RunningFound;
  }

  lemma StartLaunches(e: Exec, p: Priority, i: nat, now: int)
    requires LedgerOk(e.ledger) && QueuesOk(e) && i < |Queue(e, p)| && LaunchesOk(e)
    requires FirstOfLine(Queue(e, p), i)
    ensures LaunchesOk(Start(e, p, i, now))
  {
    QueuedJob(e, p, i);
    var q, t := Queue(e, p), Queue(e, p)[i].ticket;
    var fate := Running(e.nextJobId);
    var ledger' := e.ledger[t := e.ledger[t].(fate := fate)];
    StartKeepsLaunches(e.ledger, e.launches, t);
    StartKeepsOrder(e.ledger, e.launches, q, i);
    if p.Critical? {
      StartPrecedesOther(e.ledger, e.launches, e.normal, Normal, t);
      MarkKeepsOrder(e.ledger, t, fate, e.launches + [t], e.normal);
    } else {
      StartPrecedesOther(e.ledger, e.launches, e.critical, Critical, t);
      MarkKeepsOrder(e.ledger, t, fate, e.launches + [t], e.critical);
    }
    MarkKeepsOrder(e.ledger, t, fate, e.launches + [t], RemoveAt(q, i));
    hide QueuesOk, RemoveAt, LaunchesFiled, LaunchesOrdered, LaunchesPrecede;
  }

  lemma StartOthers(e: Exec, p: Priority, i: nat, now: int)
    requires QueuesOk(e) && i < |Queue(e, p)| && CallbacksOk(e) && CountersOk(e)
    ensures CallbacksOk(Start(e, p, i, now)) && CountersOk(Start(e, p, i, now))
  {
    QueuedJob(e, p, i);
    var t := Queue(e, p)[i].ticket;
    MarkKeepsPosted(e.ledger, t, Running(e.nextJobId), e.posted);
    MarkCounts(e.ledger, t, Running(e.nextJobId));
    hide QueuesOk, Count, PostedSound, PostedComplete, PostedDistinct, Suffix;
  }

  lemma StartKeeps(e: Exec, p: Priority, i: nat, now: int)
    requires Core(e) && i < |Queue(e, p)| && FirstOfLine(Queue(e, p), i)
    requires !Blocked(Queue(e, p)[i].request.serialKey, e.children)
    requires |e.children| < e.options.maxConcurrent
    ensures Core(Start(e, p, i, now))
  {
    assert e.nextJobId == |e.launches| + 1;
    hide QueuesOk, AdmissionOk, ChildrenOk, LaunchesOk, CallbacksOk, CountersOk;
    StartQueues(e, p, i, now);
    StartAdmission(e, p, i, now);
    StartChildren(e, p, i, now);
    StartLaunches(e, p, i, now);
    StartOthers(e, p, i, now);
  }

  // ---- Finish ----

  lemma RunningChild(e: Exec, i: nat)
    requires ChildrenOk(e) && i < |e.children|
    ensures var c := e.children[i];
            c.job.ticket < |e.ledger| && e.ledger[c.job.ticket] == Entry(c.job, Running(c.jobId))
  {
    assert Filed(e.ledger, e.children[i].job, Running(e.children[i].jobId));
  }

  ghost function DoneFate(e: Exec, i: nat, status: WaitStatus, execErrno: int, cause: Cause): Fate
    requires i < |e.children|
  {
    Done(e.children[i].jobId, cause, ResultOf(e.children[i], status, execErrno))
  }

  /** Finishing touches the queues only through the ledger entry it marks. */
  lemma FinishFrame(e: Exec, i: nat, status: WaitStatus, execErrno: int, cause: Cause)
    requires i < |e.children|
    ensures SameQueues(Mark(e, e.children[i].job.ticket, DoneFate(e, i, status, execErrno, cause)),
                       Finish(e, i, status, execErrno, cause))
  {
    hide RemoveAt, ResultOf, Unsuccessful;
  }

  lemma MarkRunning(e: Exec, i: nat, fate: Fate)
    requires LedgerOk(e.ledger) && QueuesOk(e) && AdmissionOk(e) && ChildrenOk(e) && i < |e.children| && fate.Done?
    ensures var e1 := Mark(e, e.children[i].job.ticket, fate); LedgerOk(e1.ledger) && QueuesOk(e1) && AdmissionOk(e1)
  {
    RunningChild(e, i);
    var t := e.children[i].job.ticket;
    hide ChildrenOk;
    NotQueued(e.ledger, e.critical, Critical, t);
    NotQueued(e.ledger, e.normal, Normal, t);
    MarkKeepsQueue(e.ledger, t, fate, e.critical, Critical);
    MarkKeepsQueue(e.ledger, t, fate, e.normal, Normal);
    MarkKeepsPendingFound(e.ledger, t, fate, e.critical, e.normal, e.critical, e.normal);
    hide QueueFiled, QueueDistinct, QueueOrdered, PendingFound, KeysUnique, KeysDisjoint;
  }

  lemma FinishQueues(e: Exec, i: nat, status: WaitStatus, execErrno: int, cause: Cause)
    requires LedgerOk(e.ledger) && QueuesOk(e) && AdmissionOk(e) && ChildrenOk(e) && i < |e.children|
    ensures var e' := Finish(e, i, status, execErrno, cause);
            LedgerOk(e'.ledger) && QueuesOk(e') && AdmissionOk(e')
  {
    var e1 := Mark(e, e.children[i].job.ticket, DoneFate(e, i, status, execErrno, cause));
    MarkRunning(e, i, DoneFate(e, i, status, execErrno, cause));
    FinishFrame(e, i, status, execErrno, cause);
    hide QueuesOk, AdmissionOk, ChildrenOk, Finish, Mark, DoneFate;
    QueuesFrame(e1, Finish(e, i, status, execErrno, cause));
    AdmissionFrame(e1, Finish(e, i, status, execErrno, cause));
  }

  lemma FinishChildren(e: Exec, i: nat, status: WaitStatus, execErrno: int, cause: Cause)
    requires ChildrenOk(e) && LaunchesOk(e) && i < |e.children|
    ensures var e' := Finish(e, i, status, execErrno, cause); ChildrenOk(e') && LaunchesOk(e')
  {
    RunningChild(e, i);
    var t, fate := e.children[i].job.ticket, DoneFate(e, i, status, execErrno, cause);
    FinishKeepsChildren(e.ledger, e.children, e.launches, i, fate);
    FinishKeepsRunning(e.ledger, e.children, e.launches, i, fate);
    RemoveKeepsExclusion(e.children, i);
    FinishKeepsLaunches(e.ledger, e.launches, t, fate);
    MarkKeepsOrder(e.ledger, t, fate, e.launches, e.critical);
    MarkKeepsOrder(e.ledger, t, fate, e.launches, e.normal);
    assert |RemoveAt(e.children, i)| == |e.children| - 1;
    hide RemoveAt, ChildrenFiled, ChildrenDistinct, SerialExclusive, RunningFound;
    hide LaunchesFiled, LaunchesOrdered, LaunchesPrecede;
  }

  lemma FinishCallbacks(e: Exec, i: nat, status: WaitStatus, execErrno: int, cause: Cause)
    requires ChildrenOk(e) && CallbacksOk(e) && i < |e.children|
    ensures CallbacksOk(Finish(e, i, status, execErrno, cause))
  {
    RunningChild(e, i);
    var child := e.children[i];
    SettleCallbacks(e, child.job, DoneFate(e, i, status, execErrno, cause), ResultOf(child, status, execErrno));
    hide ChildrenOk, RemoveAt, PostedSound, PostedComplete, PostedDistinct, Suffix;
  }

  lemma FinishCounters(e: Exec, i: nat, status: WaitStatus, execErrno: int, cause: Cause)
    requires ChildrenOk(e) && CountersOk(e) && i < |e.children|
    ensures CountersOk(Finish(e, i, status, execErrno, cause))
  {
    RunningChild(e, i);
    MarkCounts(e.ledger, e.children[i].job.ticket, DoneFate(e, i, status, execErrno, cause));
    assert |RemoveAt(e.children, i)| == |e.children| - 1;
    hide RemoveAt, ChildrenOk, Count, Unsuccessful;
  }

  lemma FinishKeeps(e: Exec, i: nat, status: WaitStatus, execErrno: int, cause: Cause)
    requires Core(e) && i < |e.children|
    ensures Core(Finish(e, i, status, execErrno, cause))
  {
    hide QueuesOk, AdmissionOk, ChildrenOk, LaunchesOk, CallbacksOk, CountersOk;
    FinishQueues(e, i, status, execErrno, cause);
    FinishChildren(e, i, status, execErrno, cause);
    FinishCallbacks(e, i, status, execErrno, cause);
    FinishCounters(e, i, status, execErrno, cause);
  }

  // ---- Small changes ----

  lemma ChildUpdateKeeps(e: Exec, i: nat, c: Child, signals: seq<Signal>)
    requires Core(e) && i < |e.children| && c.jobId == e.children[i].jobId && c.job == e.children[i].job
    ensures Core(e.(children := e.children[i := c], signals := signals))
  {
    var e' := e.(children := e.children[i := c], signals := signals);
    UpdateKeepsChildren(e.ledger, e.children, e.launches, i, c);
    QueuesFrame(e, e');
    AdmissionFrame(e, e');
    LaunchesFrame(e, e');
    CallbacksFrame(e, e');
    hide QueuesOk, AdmissionOk, LaunchesOk, CallbacksOk, Count;
    hide ChildrenFiled, ChildrenDistinct, SerialExclusive, RunningFound;
  }

  /** The connection state, the restart timer and the stop flag are not read by the core. */
  ghost predicate SameWork(e: Exec, e': Exec) {
    && e'.options == e.options && e'.critical == e.critical && e'.normal == e.normal && e'.children == e.children
    && e'.completions == e.completions && e'.nextJobId == e.nextJobId
    && e'.submitted == e.submitted && e'.completed == e.completed && e'.timedOut == e.timedOut
    && e'.failed == e.failed && e'.dropped == e.dropped && e'.coalesced == e.coalesced
    && e'.ledger == e.ledger && e'.launches == e.launches && e'.posted == e.posted
  }

  lemma FlagsKeep(e: Exec, e': Exec)
    requires Core(e) && SameWork(e, e')
    ensures Core(e')
  {
    QueuesFrame(e, e');
    AdmissionFrame(e, e');
    LaunchesFrame(e, e');
    CallbacksFrame(e, e');
    hide QueuesOk, AdmissionOk, LaunchesOk, CallbacksOk, Count;
    hide ChildrenFiled, ChildrenDistinct, SerialExclusive, RunningFound;
  }

  lemma DeliverKeeps(e: Exec)
    requires Inv(e)
    ensures Inv(Deliver(e))
  {
    var e' := Deliver(e);
    QueuesFrame(e, e');
    AdmissionFrame(e, e');
    LaunchesFrame(e, e');
    DeliverCallbacks(e);
    hide QueuesOk, AdmissionOk, LaunchesOk, CallbacksOk, Count;
    hide ChildrenFiled, ChildrenDistinct, SerialExclusive, RunningFound;
  }

  lemma DeliverCallbacks(e: Exec)
    requires CallbacksOk(e)
    ensures CallbacksOk(Deliver(e))
  {
    hide PostedSound, PostedDistinct, PostedComplete;
  }

  // ---- Submit ----

  lemma SupersedeThenEnqueue(e: Exec, s: Submission, p: Priority, i: nat)
    requires Inv(e) && s.coalesceKey != ""
    requires i < |Queue(e, p)| && Queue(e, p)[i].request.coalesceKey == s.coalesceKey
    ensures Inv(Enqueue(Withdraw(e, p, i, Superseded), s))
  {
    assert AdmissionOk(e);
    hide Core, AdmissionOk, Withdraw;
    var e' := Withdraw(e, p, i, Superseded);
    WithdrawKeeps(e, p, i, Superseded);
    SupersededKeyIsFree(e, s, p, i);
    EnqueueKeeps(e', s);
    EnqueueFrame(e', s);
  }

  lemma SupersededKeyIsFree(e: Exec, s: Submission, p: Priority, i: nat)
    requires AdmissionOk(e) && i < |Queue(e, p)| && s.coalesceKey != ""
    requires Queue(e, p)[i].request.coalesceKey == s.coalesceKey
    ensures KeyIsFree(Withdraw(e, p, i, Superseded), s)
  {
    hide CriticalKept;
    OthersLackKey(Queue(e, p), i);
    assert p.Critical? ==> forall k :: 0 <= k < |e.normal| ==> e.normal[k].request.coalesceKey != s.coalesceKey;
    assert p.Normal? ==> forall k :: 0 <= k < |e.critical| ==> e.critical[k].request.coalesceKey != s.coalesceKey;
    hide RemoveAt, AdmissionOk;
  }

  lemma OthersLackKey(q: seq<Job>, i: nat)
    requires i < |q| && KeysUnique(q) && q[i].request.coalesceKey != ""
    ensures forall k :: 0 <= k < |RemoveAt(q, i)| ==>
              RemoveAt(q, i)[k].request.coalesceKey != q[i].request.coalesceKey
  {
    var r := RemoveAt(q, i);
    assert forall k :: 0 <= k < |r| ==> r[k] == q[if k < i then k else k + 1];
  }

  lemma SubmitKeeps(e: Exec, s: Submission)
    requires Inv(e)
    ensures Inv(Submit(e, s))
  {
    hide Core, First, Withdraw, Enqueue, Reject;
    var inCritical, inNormal := First(e.critical, SameKey(s.coalesceKey)), First(e.normal, SameKey(s.coalesceKey));
    var victim := First(e.normal, Coalescible);
    if e.stopping {
      RejectKeeps(e, s);
      RejectFrame(e, s);
    } else if s.coalesceKey != "" && inCritical < |e.critical| {
      SupersedeThenEnqueue(e, s, Critical, inCritical);
    } else if s.coalesceKey != "" && inNormal < |e.normal| {
      SupersedeThenEnqueue(e, s, Normal, inNormal);
    } else {
      assert KeyIsFree(e, s);
      if PendingCount(e) < e.options.maxPending {
        EnqueueKeeps(e, s);
        EnqueueFrame(e, s);
      } else if s.priority.Critical? && victim < |e.normal| {
        WithdrawKeeps(e, Normal, victim, Evicted);
        EvictedKeyIsFree(e, s, victim);
        EnqueueKeeps(Withdraw(e, Normal, victim, Evicted), s);
        EnqueueFrame(Withdraw(e, Normal, victim, Evicted), s);
      } else {
        RejectKeeps(e, s);
        RejectFrame(e, s);
      }
    }
  }

  lemma EnqueueFrame(e: Exec, s: Submission)
    ensures WithdrawalFrame(e, Enqueue(e, s))
  {
  }

  lemma RejectFrame(e: Exec, s: Submission)
    ensures WithdrawalFrame(e, Reject(e, s))
  {
  }

  lemma EvictedKeyIsFree(e: Exec, s: Submission, i: nat)
    requires KeyIsFree(e, s) && i < |e.normal|
    ensures KeyIsFree(Withdraw(e, Normal, i, Evicted), s)
  {
    var r := RemoveAt(e.normal, i);
    assert forall k :: 0 <= k < |r| ==> r[k] == e.normal[if k < i then k else k + 1];
    hide RemoveAt;
  }

  // ---- Failure ----

  lemma {:induction false} FinishAllKeeps(e: Exec, failure: int, now: int)
    requires Core(e)
    ensures Core(FinishAll(e, failure, now))
    decreases |e.children|
  {
    hide Core, Finish;
    if e.children != [] {
      var e1 := KillLost(e, now);
      FlagsKeep(e, e1);
      FinishKeeps(e1, 0, Exited(127), failure, SupervisorLost);
      FinishShrinks(e1, Exited(127), failure, SupervisorLost);
      FinishAllKeeps(Finish(e1, 0, Exited(127), failure, SupervisorLost), failure, now);
    }
  }

  lemma FinishShrinks(e: Exec, status: WaitStatus, execErrno: int, cause: Cause)
    requires e.children != []
    ensures |Finish(e, 0, status, execErrno, cause).children| == |e.children| - 1
  {
  }

  lemma FailKeeps(e: Exec, error: int, now: int, gone: bool)
    requires Core(e) && (DownMeansIdle(e) || !e.supervisorFailed)
    ensures Inv(FailSupervisor(e, error, now, gone))
  {
    hide Core, FinishAll;
    if !e.supervisorFailed {
      var failure := if error == 0 then EPIPE else error;
      var e1 := ReapSupervisor(e.(supervisorFailed := true, lastError := failure, connected := false), gone);
      FlagsKeep(e, e1);
      FinishAllKeeps(e1, failure, now);
      var e2 := FinishAll(e1, failure, now);
      FlagsKeep(e2, e2.(restartAfter := now + e2.options.restartDelay));
    }
  }

  // ---- Launch ----

  lemma ChosenIsFirstOfLine(e: Exec)
    requires Choose(e).Chosen?
    ensures var c := Choose(e);
            FirstOfLine(Queue(e, c.priority), c.index)
            && !Blocked(Queue(e, c.priority)[c.index].request.serialKey, e.children)
  {
    hide Blocked, First;
  }

  lemma LaunchKeeps(e: Exec, outcome: SendOutcome, now: int, gone: bool)
    requires Inv(e) && MayLaunch(e) && Choose(e).Chosen?
    ensures var c := Choose(e); Inv(Launch(e, c.priority, c.index, outcome, now, gone))
  {
    var c := Choose(e);
    var p, i := c.priority, c.index;
    ChosenIsFirstOfLine(e);
    hide Core, Choose, FirstOfLine, Blocked, Withdraw, Requeue, FailSupervisor;
    if !HookCodec.Fits(Queue(e, p)[i].request.argv) {
      WithdrawKeeps(e, p, i, LaunchFailed(E2BIG));
    } else if outcome.Sent? {
      StartKeeps(e, p, i, now);
    } else if outcome.WouldBlock? {
      RequeueKeeps(e, p, i);
      RequeueFrame(e, p, i);
    } else {
      var failure := if outcome.error == 0 then EPIPE else outcome.error;
      WithdrawKeeps(e, p, i, LaunchFailed(failure));
      FailKeeps(Withdraw(e, p, i, LaunchFailed(failure)), failure, now, gone);
    }
  }

  lemma RequeueFrame(e: Exec, p: Priority, i: nat)
    requires i < |Queue(e, p)|
    ensures WithdrawalFrame(e, Requeue(e, p, i))
  {
  }

  // ---- Receive and expire ----

  lemma ReceiveKeeps(e: Exec, response: Response)
    requires Inv(e)
    ensures Inv(Receive(e, response))
  {
    var i := IndexOf(e.children, response.jobId);
    hide IndexOf, Core;
    if i < |e.children| {
      var e' := SetPid(e, i, response.pid);
      ChildUpdateKeeps(e, i, e.children[i].(pid := response.pid), e.signals);
      assert e' == e.(children := e.children[i := e.children[i].(pid := response.pid)], signals := e.signals);
      if response.Finished? {
        FinishKeeps(if e.children[i].pid < 0 then e' else e, i, response.status, response.execErrno, OwnResponse);
      }
    }
  }

  lemma {:induction false} ReceiveAllKeeps(e: Exec, inbox: seq<Incoming>, now: int, gone: bool)
    requires Inv(e)
    ensures Inv(ReceiveAll(e, inbox, now, gone))
    decreases |inbox|
  {
    hide Core, Receive, FailSupervisor;
    if e.connected && inbox != [] {
      match inbox[0]
      case Empty =>
      case Interrupted => ReceiveAllKeeps(e, inbox[1..], now, gone);
      case Broken(error) => FailKeeps(e, error, now, gone);
      case Message(response) =>
        ReceiveKeeps(e, response);
        ReceiveAllKeeps(Receive(e, response), inbox[1..], now, gone);
    }
  }

  lemma EscalateKeeps(e: Exec, i: nat, action: Action, now: int)
    requires Inv(e) && i < |e.children| && !action.LossKill?
    ensures Inv(Escalate(e, i, action, now))
  {
    var e' := Escalate(e, i, action, now);
    ChildUpdateKeeps(e, i, e'.children[i], e'.signals);
    hide Core;
    assert e' == e.(children := e.children[i := e'.children[i]], signals := e'.signals);
  }

  lemma {:induction false} ExpireKeeps(e: Exec, i: nat, now: int, gone: bool)
    requires Inv(e)
    ensures Inv(ExpireFrom(e, i, now, gone))
    decreases |e.children| - i
  {
    hide Core, FailSupervisor, Escalate;
    if i < |e.children| {
      if e.children[i].pid < 0 && now - e.children[i].started >= e.options.responseTimeout {
        FailKeeps(e, ETIMEDOUT, now, gone);
      } else {
        EscalateKeeps(e, i, Terminate, now);
        EscalateKeeps(e, i, Kill, now);
        ExpireKeeps(ExpireChild(e, i, now), i + 1, now, gone);
      }
    }
  }

  lemma ReapAndExpireKeeps(e: Exec, inbox: seq<Incoming>, now: int, gone: bool)
    requires Inv(e)
    ensures Inv(ReapAndExpire(e, inbox, now, gone))
  {
    hide Core, ReceiveAll, ExpireFrom;
    ReceiveAllKeeps(e, inbox, now, gone);
    var e1 := ReceiveAll(e, inbox, now, gone);
    var e2 := if e1.supervisorFailed then ReapSupervisor(e1, gone) else e1;
    FlagsKeep(e1, e2);
    ExpireKeeps(e2, 0, now, gone);
  }

  // ---- Stop and restart ----

  lemma {:induction false} TerminateKeeps(e: Exec, i: nat, now: int)
    requires Inv(e)
    ensures Inv(TerminateFrom(e, i, now))
    decreases |e.children| - i
  {
    hide Core, Escalate;
    if i < |e.children| {
      EscalateKeeps(e, i, Terminate, now);
      var c := e.children[i];
      var e' := if c.pid > 0 && !c.timedOut then Escalate(e, i, Terminate, now) else e;
      EscalateLength(e, i, Terminate, now);
      TerminateKeeps(e', i + 1, now);
    }
  }

  lemma EscalateLength(e: Exec, i: nat, action: Action, now: int)
    requires i < |e.children| && !action.LossKill?
    ensures |Escalate(e, i, action, now).children| == |e.children|
  {
  }

  ghost function Discard(e: Exec): Exec {
    e.(stopping := true, dropped := e.dropped + PendingCount(e), critical := [], normal := [],
       ledger := DiscardAll(e.ledger))
  }

  lemma DiscardCounters(e: Exec)
    requires CountersOk(e)
    ensures CountersOk(Discard(e))
  {
    forall tally
      ensures Count(DiscardAll(e.ledger), tally) ==
              if tally.Queued? then 0
              else if tally.DroppedJobs? then Count(e.ledger, DroppedJobs) + Count(e.ledger, Queued)
              else Count(e.ledger, tally) {
      CountDiscarded(e.ledger, tally);
    }
    hide Count;
  }

  lemma DiscardKeeps(e: Exec)
    requires Inv(e)
    ensures Inv(Discard(e))
  {
    DiscardQueues(e);
    DiscardHistory(e);
    DiscardCounters(e);
    hide QueuesOk, AdmissionOk, ChildrenOk, LaunchesOk, CallbacksOk, CountersOk, DiscardAll;
  }

  lemma DiscardQueues(e: Exec)
    requires LedgerOk(e.ledger) && AdmissionOk(e)
    ensures LedgerOk(Discard(e).ledger) && QueuesOk(Discard(e)) && AdmissionOk(Discard(e))
  {
    hide DiscardAll, Filed, SameLine;
  }

  lemma DiscardHistory(e: Exec)
    requires LedgerOk(e.ledger) && ChildrenOk(e) && LaunchesOk(e) && CallbacksOk(e)
    ensures ChildrenOk(Discard(e)) && LaunchesOk(Discard(e)) && CallbacksOk(Discard(e))
  {
    DiscardIsQuiet(e.ledger);
    QuietKeepsLaunches(e.ledger, DiscardAll(e.ledger), e.launches);
    QuietKeepsOrder(e.ledger, DiscardAll(e.ledger), e.launches);
    DiscardKeepsChildren(e.ledger, e.children, e.launches);
    DiscardKeepsPosted(e.ledger, e.posted);
    hide LaunchesFiled, LaunchesOrdered, ChildrenFiled, ChildrenDistinct, SerialExclusive, RunningFound;
    hide PostedSound, PostedDistinct, PostedComplete, Suffix, DiscardAll;
  }

  lemma StopKeeps(e: Exec, now: int)
    requires Inv(e)
    ensures Inv(Stop(e, now))
  {
    hide Core, TerminateFrom;
    DiscardKeeps(e);
    TerminateKeeps(Discard(e), 0, now);
  }

  lemma RestartKeeps(e: Exec, spawn: Spawn, now: int)
    requires Inv(e) && MayRestart(e, now)
    ensures Inv(Restart(e, spawn, now))
  {
    hide Core;
    FlagsKeep(e, Restart(e, spawn, now));
  }
}
