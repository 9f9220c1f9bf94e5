/**
 Bookkeeping facts about the executor's ledger, queues, child table and callback list.

 The predicates here are the parts of which `HookInvariants` is composed, each about a few of the
 executor's fields only:
   - counts: how many tickets met a given group of fates;
   - queues: every queued job is filed as pending, once, in submission order per serial key;
   - keys: no coalesce key is pending twice;
   - children and launches: who runs under which job id, and in which order jobs were launched;
   - callbacks: who is owed one and what it must say.
 For each change that a critical section makes to these fields (an entry is appended or marked, a
 job is pushed, removed or put back, a child is added or removed) a lemma says that the part holds
 on. The lemmas are kept this small so that no proof has to consider two parts at once.
 */
module HookLedger {
  import opened HookState

  // ---- Counting the tickets that met a given fate ----

  datatype Tally = Queued | InFlight | CompletedJobs | TimedOutJobs | FailedJobs | DroppedJobs | CoalescedJobs

  ghost predicate Holds(tally: Tally, fate: Fate) {
    match tally
    case Queued => fate.Pending?
    case InFlight => fate.Running?
    case CompletedJobs => fate.LaunchFailed? || fate.Done?
    case TimedOutJobs => fate.Done? && fate.result.timedOut
    case FailedJobs =>
      || (fate.LaunchFailed? && fate.error != 0)
      || (fate.Done? && (fate.result.execErrno != 0 || fate.result.exitCode != 0 || fate.result.termSignal != 0))
    case DroppedJobs => fate.Rejected? || fate.Evicted? || fate.Discarded?
    case CoalescedJobs => fate.Superseded?
  }

  ghost function One(b: bool): nat {
    if b then 1 else 0
  }

  ghost function Count(ledger: seq<Entry>, tally: Tally): nat {
    if ledger == [] then 0
    else Count(ledger[..|ledger| - 1], tally) + One(Holds(tally, ledger[|ledger| - 1].fate))
  }

  lemma CountAppend(ledger: seq<Entry>, entry: Entry, tally: Tally)
    ensures Count(ledger + [entry], tally) == Count(ledger, tally) + One(Holds(tally, entry.fate))
  {
    assert (ledger + [entry])[..|ledger|] == ledger;
  }

  lemma {:induction false} CountUpdate(ledger: seq<Entry>, t: nat, entry: Entry, tally: Tally)
    requires t < |ledger|
    ensures Count(ledger[t := entry], tally) + One(Holds(tally, ledger[t].fate))
         == Count(ledger, tally) + One(Holds(tally, entry.fate))
  {
    hide Holds;
    var n := |ledger| - 1;
    var changed := ledger[t := entry];
    if t < n {
      assert changed[..n] == ledger[..n][t := entry];
      CountUpdate(ledger[..n], t, entry, tally);
    } else {
      assert changed[..n] == ledger[..n];
    }
  }

  lemma {:induction false} CountDiscarded(ledger: seq<Entry>, tally: Tally)
    ensures Count(DiscardAll(ledger), tally) ==
            if tally.Queued? then 0
            else if tally.DroppedJobs? then Count(ledger, DroppedJobs) + Count(ledger, Queued)
            else Count(ledger, tally)
  {
    if ledger != [] {
      var n := |ledger| - 1;
      var all, front := DiscardAll(ledger), DiscardAll(ledger[..n]);
      CountDiscarded(ledger[..n], tally);
      var last := if ledger[n].fate.Pending? then ledger[n].(fate := Discarded) else ledger[n];
      assert all[..n] == front && all[n] == last by {
        hide DiscardAll, Count;
        assert forall t :: 0 <= t < n ==> all[..n][t] == front[t];
      }
      OneDiscarded(ledger[n], tally);
      hide DiscardAll, Holds;
    }
  }

  /** What discarding one entry does to the counts. */
  lemma OneDiscarded(entry: Entry, tally: Tally)
    ensures var after := if entry.fate.Pending? then entry.(fate := Discarded) else entry;
            One(Holds(tally, after.fate)) ==
            if tally.Queued? then 0
            else if tally.DroppedJobs? then One(Holds(DroppedJobs, entry.fate)) + One(Holds(Queued, entry.fate))
            else One(Holds(tally, entry.fate))
  {
  }

  /** Every ticket is in exactly one of the five groups that the status page reports. */
  lemma {:induction false} EveryTicketCountsOnce(ledger: seq<Entry>)
    ensures |ledger| == Count(ledger, Queued) + Count(ledger, InFlight) + Count(ledger, CompletedJobs)
                        + Count(ledger, DroppedJobs) + Count(ledger, CoalescedJobs)
  {
    if ledger != [] {
      EveryTicketCountsOnce(ledger[..|ledger| - 1]);
    }
  }

  // ---- Component invariants ----

  ghost predicate LedgerOk(ledger: seq<Entry>) {
    forall t :: 0 <= t < |ledger| ==> ledger[t].job.ticket == t
  }

  ghost predicate Filed(ledger: seq<Entry>, job: Job, fate: Fate) {
    job.ticket < |ledger| && ledger[job.ticket] == Entry(job, fate)
  }

  /** Same priority class and same serial key: such jobs launch in submission order. */
  ghost predicate SameLine(a: Job, b: Job) {
    a.request.priority == b.request.priority && a.request.serialKey == b.request.serialKey
  }

  ghost predicate QueueFiled(ledger: seq<Entry>, q: seq<Job>, p: Priority) {
    forall i :: 0 <= i < |q| ==> Filed(ledger, q[i], Pending) && q[i].request.priority == p
  }

  ghost predicate QueueDistinct(q: seq<Job>) {
    forall i, k :: 0 <= i < k < |q| ==> q[i].ticket != q[k].ticket
  }

  ghost predicate QueueOrdered(q: seq<Job>) {
    forall i, k :: 0 <= i < k < |q| && SameLine(q[i], q[k]) ==> q[i].ticket < q[k].ticket
  }

  ghost predicate PendingFound(ledger: seq<Entry>, critical: seq<Job>, normal: seq<Job>) {
    forall t :: 0 <= t < |ledger| && ledger[t].fate.Pending? ==> ledger[t].job in critical || ledger[t].job in normal
  }

  /** At most one pending job holds any non-empty coalesce key. */
  ghost predicate KeysUnique(q: seq<Job>) {
    forall i, k :: 0 <= i < k < |q| && q[i].request.coalesceKey == q[k].request.coalesceKey ==>
      q[i].request.coalesceKey == ""
  }

  ghost predicate KeysDisjoint(critical: seq<Job>, normal: seq<Job>) {
    forall i, k :: 0 <= i < |critical| && 0 <= k < |normal| &&
                   critical[i].request.coalesceKey == normal[k].request.coalesceKey ==>
      critical[i].request.coalesceKey == ""
  }

  ghost predicate ChildrenFiled(ledger: seq<Entry>, children: seq<Child>, launches: seq<nat>) {
    forall i :: 0 <= i < |children| ==>
      && 1 <= children[i].jobId <= |launches|
      && launches[children[i].jobId - 1] == children[i].job.ticket
      && Filed(ledger, children[i].job, Running(children[i].jobId))
  }

  ghost predicate ChildrenDistinct(children: seq<Child>) {
    forall i, k :: 0 <= i < k < |children| ==> children[i].jobId != children[k].jobId
  }

  ghost predicate SerialExclusive(children: seq<Child>) {
    forall i, k :: 0 <= i < k < |children| &&
                   children[i].job.request.serialKey == children[k].job.request.serialKey ==>
      children[i].job.request.serialKey == ""
  }

  ghost predicate HasChild(children: seq<Child>, jobId: nat) {
    exists i :: 0 <= i < |children| && children[i].jobId == jobId
  }

  ghost predicate RunningFound(ledger: seq<Entry>, children: seq<Child>) {
    forall t :: 0 <= t < |ledger| && ledger[t].fate.Running? ==> HasChild(children, ledger[t].fate.jobId)
  }

  ghost predicate WasLaunched(fate: Fate, jobId: nat) {
    fate == Running(jobId) || (fate.Done? && fate.finishedId == jobId)
  }

  /** Launch number `k` is running or finished under job id `k`, and nothing else is. */
  ghost predicate LaunchesFiled(ledger: seq<Entry>, launches: seq<nat>) {
    && (forall a :: 0 <= a < |launches| ==>
          launches[a] < |ledger| && WasLaunched(ledger[launches[a]].fate, a + 1))
    && (forall t :: 0 <= t < |ledger| && (ledger[t].fate.Running? || ledger[t].fate.Done?) ==>
          var id := if ledger[t].fate.Running? then ledger[t].fate.jobId else ledger[t].fate.finishedId;
          1 <= id <= |launches| && launches[id - 1] == t)
  }

  ghost predicate LaunchesOrdered(ledger: seq<Entry>, launches: seq<nat>) {
    && (forall a :: 0 <= a < |launches| ==> launches[a] < |ledger|)
    && (forall a, b :: 0 <= a < b < |launches| && SameLine(ledger[launches[a]].job, ledger[launches[b]].job) ==>
          launches[a] < launches[b])
  }

  /** Nothing launched so far was submitted after a job of its line that still waits in `q`. */
  ghost predicate LaunchesPrecede(ledger: seq<Entry>, launches: seq<nat>, q: seq<Job>) {
    && (forall a :: 0 <= a < |launches| ==> launches[a] < |ledger|)
    && (forall a, i :: 0 <= a < |launches| && 0 <= i < |q| && SameLine(ledger[launches[a]].job, q[i]) ==>
          launches[a] < q[i].ticket)
  }

  /** The fates that owe the submitter a callback. */
  ghost predicate Due(entry: Entry) {
    entry.job.request.hasCallback &&
    (entry.fate.Superseded? || entry.fate.Evicted? || entry.fate.LaunchFailed? || entry.fate.Done?)
  }

  ghost function DueResult(entry: Entry): HookResult {
    if entry.fate.Done? then entry.fate.result
    else
      var error := if entry.fate.LaunchFailed? then entry.fate.error else 125;
      HookResult(entry.job.request.argv, -1, -1, 0, error, false)
  }

  ghost predicate IsPosted(posted: seq<Delivery>, ticket: nat) {
    exists i :: 0 <= i < |posted| && posted[i].ticket == ticket
  }

  ghost predicate PostedSound(ledger: seq<Entry>, posted: seq<Delivery>) {
    forall i :: 0 <= i < |posted| ==>
      && posted[i].ticket < |ledger|
      && Due(ledger[posted[i].ticket])
      && posted[i].result == DueResult(ledger[posted[i].ticket])
  }

  ghost predicate PostedDistinct(posted: seq<Delivery>) {
    forall i, k :: 0 <= i < k < |posted| ==> posted[i].ticket != posted[k].ticket
  }

  ghost predicate PostedComplete(ledger: seq<Entry>, posted: seq<Delivery>) {
    forall t :: 0 <= t < |ledger| && Due(ledger[t]) ==> IsPosted(posted, t)
  }

  ghost predicate Suffix<T>(part: seq<T>, whole: seq<T>) {
    |part| <= |whole| && part == whole[|whole| - |part|..]
  }

  /** A critical job without a coalesce key is never replaced or evicted. */
  ghost predicate CriticalKept(ledger: seq<Entry>) {
    forall t :: 0 <= t < |ledger| && ledger[t].job.request.priority.Critical?
                && ledger[t].job.request.coalesceKey == "" ==>
      !ledger[t].fate.Superseded? && !ledger[t].fate.Evicted?
  }

  lemma MarkKeepsCritical(ledger: seq<Entry>, t: nat, fate: Fate)
    requires CriticalKept(ledger) && t < |ledger|
    requires (fate.Superseded? || fate.Evicted?) ==>
               ledger[t].job.request.priority.Normal? || ledger[t].job.request.coalesceKey != ""
    ensures CriticalKept(ledger[t := ledger[t].(fate := fate)])
  {
  }

  // ---- The ledger grows ----

  lemma AppendKeeps(ledger: seq<Entry>, entry: Entry, q: seq<Job>, p: Priority)
    requires QueueFiled(ledger, q, p)
    ensures QueueFiled(ledger + [entry], q, p)
  {
  }

  lemma AppendKeepsChildren(ledger: seq<Entry>, entry: Entry, children: seq<Child>, launches: seq<nat>)
    requires ChildrenFiled(ledger, children, launches) && RunningFound(ledger, children)
    requires !entry.fate.Running?
    ensures ChildrenFiled(ledger + [entry], children, launches) && RunningFound(ledger + [entry], children)
  {
  }

  lemma AppendKeepsLaunches(ledger: seq<Entry>, entry: Entry, launches: seq<nat>, q: seq<Job>)
    requires LaunchesFiled(ledger, launches) && LaunchesOrdered(ledger, launches)
    requires LaunchesPrecede(ledger, launches, q)
    requires !entry.fate.Running? && !entry.fate.Done?
    ensures LaunchesFiled(ledger + [entry], launches) && LaunchesOrdered(ledger + [entry], launches)
    ensures LaunchesPrecede(ledger + [entry], launches, q)
  {
  }

  lemma AppendKeepsPosted(ledger: seq<Entry>, entry: Entry, posted: seq<Delivery>)
    requires PostedSound(ledger, posted) && PostedComplete(ledger, posted) && !Due(entry)
    ensures PostedSound(ledger + [entry], posted) && PostedComplete(ledger + [entry], posted)
  {
  }

  lemma PushBack(ledger: seq<Entry>, q: seq<Job>, job: Job)
    requires LedgerOk(ledger) && job.ticket == |ledger|
    requires QueueFiled(ledger, q, job.request.priority) && QueueDistinct(q) && QueueOrdered(q)
    ensures QueueFiled(ledger + [Entry(job, Pending)], q + [job], job.request.priority)
    ensures QueueDistinct(q + [job]) && QueueOrdered(q + [job])
  {
    var q', ledger' := q + [job], ledger + [Entry(job, Pending)];
    forall i | 0 <= i < |q'| ensures Filed(ledger', q'[i], Pending) && q'[i].request.priority == job.request.priority {
      assert i < |q| ==> Filed(ledger, q[i], Pending);
    }
    assert forall i :: 0 <= i < |q| ==> Filed(ledger, q[i], Pending) && q'[i].ticket < |ledger|;
  }

  lemma PushBackPrecede(ledger: seq<Entry>, launches: seq<nat>, q: seq<Job>, job: Job)
    requires LaunchesPrecede(ledger, launches, q) && job.ticket == |ledger|
    ensures LaunchesPrecede(ledger + [Entry(job, Pending)], launches, q + [job])
  {
    var ledger' := ledger + [Entry(job, Pending)];
    assert forall a :: 0 <= a < |launches| ==> ledger'[launches[a]] == ledger[launches[a]];
  }

  // ---- A ticket changes fate ----

  lemma MarkKeepsQueue(ledger: seq<Entry>, t: nat, fate: Fate, q: seq<Job>, p: Priority)
    requires QueueFiled(ledger, q, p) && t < |ledger|
    requires forall i :: 0 <= i < |q| ==> q[i].ticket != t
    ensures QueueFiled(ledger[t := ledger[t].(fate := fate)], q, p)
  {
  }

  /** A queue of one class never holds a ticket of the other class or one that is not pending. */
  lemma NotQueued(ledger: seq<Entry>, q: seq<Job>, p: Priority, t: nat)
    requires QueueFiled(ledger, q, p) && t < |ledger|
    requires !ledger[t].fate.Pending? || ledger[t].job.request.priority != p
    ensures forall i :: 0 <= i < |q| ==> q[i].ticket != t
  {
    forall i | 0 <= i < |q| ensures q[i].ticket != t {
      assert Filed(ledger, q[i], Pending);
    }
  }

  lemma RemoveKeepsQueue(ledger: seq<Entry>, q: seq<Job>, p: Priority, i: nat)
    requires i < |q| && QueueFiled(ledger, q, p) && QueueDistinct(q) && QueueOrdered(q)
    ensures QueueFiled(ledger, RemoveAt(q, i), p) && QueueDistinct(RemoveAt(q, i)) && QueueOrdered(RemoveAt(q, i))
    ensures forall k :: 0 <= k < |RemoveAt(q, i)| ==> RemoveAt(q, i)[k].ticket != q[i].ticket
  {
    hide Filed, SameLine;
    var r := RemoveAt(q, i);
    assert forall k :: 0 <= k < |r| ==> r[k] == q[if k < i then k else k + 1];
  }

  lemma RemoveKeepsKeys(q: seq<Job>, i: nat)
    requires i < |q| && KeysUnique(q)
    ensures KeysUnique(RemoveAt(q, i))
  {
    var r := RemoveAt(q, i);
    assert forall k :: 0 <= k < |r| ==> r[k] == q[if k < i then k else k + 1];
  }

  lemma RemoveKeepsDisjoint(critical: seq<Job>, normal: seq<Job>, i: nat)
    requires KeysDisjoint(critical, normal)
    ensures i < |critical| ==> KeysDisjoint(RemoveAt(critical, i), normal)
    ensures i < |normal| ==> KeysDisjoint(critical, RemoveAt(normal, i))
  {
    if i < |critical| {
      var r := RemoveAt(critical, i);
      assert forall k :: 0 <= k < |r| ==> r[k] == critical[if k < i then k else k + 1];
    }
    if i < |normal| {
      var r := RemoveAt(normal, i);
      assert forall k :: 0 <= k < |r| ==> r[k] == normal[if k < i then k else k + 1];
    }
  }

  lemma RemoveKeepsPrecede(ledger: seq<Entry>, launches: seq<nat>, q: seq<Job>, i: nat)
    requires i < |q| && LaunchesPrecede(ledger, launches, q)
    ensures LaunchesPrecede(ledger, launches, RemoveAt(q, i))
  {
    hide SameLine;
    var r := RemoveAt(q, i);
    assert forall k :: 0 <= k < |r| ==> r[k] == q[if k < i then k else k + 1];
  }

  lemma RemoveMembers(q: seq<Job>, i: nat)
    requires i < |q|
    ensures forall job :: job in q && job != q[i] ==> job in RemoveAt(q, i)
  {
    forall job | job in q && job != q[i] ensures job in RemoveAt(q, i) {
      var k :| 0 <= k < |q| && q[k] == job;
      assert RemoveAt(q, i)[if k < i then k else k - 1] == job;
    }
  }

  lemma MarkKeepsPendingFound(ledger: seq<Entry>, t: nat, fate: Fate, critical: seq<Job>, normal: seq<Job>,
                              critical': seq<Job>, normal': seq<Job>)
    requires t < |ledger| && !fate.Pending? && LedgerOk(ledger)
    requires PendingFound(ledger, critical, normal)
    requires forall job :: job in critical && job.ticket != t ==> job in critical'
    requires forall job :: job in normal && job.ticket != t ==> job in normal'
    ensures PendingFound(ledger[t := ledger[t].(fate := fate)], critical', normal')
  {
  }

  lemma MarkKeepsChildren(ledger: seq<Entry>, t: nat, fate: Fate, children: seq<Child>, launches: seq<nat>)
    requires t < |ledger| && ChildrenFiled(ledger, children, launches)
    requires !ledger[t].fate.Running? && !fate.Running?
    ensures ChildrenFiled(ledger[t := ledger[t].(fate := fate)], children, launches)
  {
    var ledger' := ledger[t := ledger[t].(fate := fate)];
    forall i | 0 <= i < |children| ensures Filed(ledger', children[i].job, Running(children[i].jobId)) {
      assert Filed(ledger, children[i].job, Running(children[i].jobId));
    }
  }

  lemma MarkKeepsRunningFound(ledger: seq<Entry>, t: nat, fate: Fate, children: seq<Child>)
    requires t < |ledger| && RunningFound(ledger, children) && !fate.Running?
    ensures RunningFound(ledger[t := ledger[t].(fate := fate)], children)
  {
  }

  lemma MarkKeepsOrder(ledger: seq<Entry>, t: nat, fate: Fate, launches: seq<nat>, q: seq<Job>)
    requires t < |ledger| && LaunchesOrdered(ledger, launches) && LaunchesPrecede(ledger, launches, q)
    ensures LaunchesOrdered(ledger[t := ledger[t].(fate := fate)], launches)
    ensures LaunchesPrecede(ledger[t := ledger[t].(fate := fate)], launches, q)
  {
    hide SameLine;
    var ledger' := ledger[t := ledger[t].(fate := fate)];
    assert forall a :: 0 <= a < |launches| ==> ledger'[launches[a]].job == ledger[launches[a]].job;
  }

  /** A fate that is neither running nor done, before or after, leaves the launch record alone. */
  lemma MarkKeepsLaunches(ledger: seq<Entry>, t: nat, fate: Fate, launches: seq<nat>)
    requires t < |ledger| && LaunchesFiled(ledger, launches)
    requires !ledger[t].fate.Running? && !ledger[t].fate.Done? && !fate.Running? && !fate.Done?
    ensures LaunchesFiled(ledger[t := ledger[t].(fate := fate)], launches)
  {
  }

  lemma MarkKeepsPosted(ledger: seq<Entry>, t: nat, fate: Fate, posted: seq<Delivery>)
    requires t < |ledger| && PostedSound(ledger, posted) && PostedComplete(ledger, posted)
    requires !Due(ledger[t]) && !Due(ledger[t].(fate := fate))
    ensures PostedSound(ledger[t := ledger[t].(fate := fate)], posted)
    ensures PostedComplete(ledger[t := ledger[t].(fate := fate)], posted)
  {
    hide Due, DueResult;
  }

  lemma MarkPosts(ledger: seq<Entry>, t: nat, fate: Fate, posted: seq<Delivery>)
    requires t < |ledger| && PostedSound(ledger, posted) && PostedComplete(ledger, posted) && PostedDistinct(posted)
    requires !Due(ledger[t]) && Due(ledger[t].(fate := fate))
    ensures var entry := ledger[t].(fate := fate);
            var posted' := posted + [Delivery(t, DueResult(entry))];
            PostedSound(ledger[t := entry], posted') && PostedComplete(ledger[t := entry], posted')
            && PostedDistinct(posted')
  {
    hide Due, DueResult;
    var entry := ledger[t].(fate := fate);
    var ledger', posted' := ledger[t := entry], posted + [Delivery(t, DueResult(entry))];
    assert forall i :: 0 <= i < |posted| ==> posted[i].ticket != t;
    forall s | 0 <= s < |ledger'| && Due(ledger'[s]) ensures IsPosted(posted', s) {
      if s == t {
        assert posted'[|posted|].ticket == t;
      } else {
        assert IsPosted(posted, s);
        var i :| 0 <= i < |posted| && posted[i].ticket == s;
        assert posted'[i].ticket == s;
      }
    }
  }

  lemma SuffixAppend<T>(part: seq<T>, whole: seq<T>, x: T)
    requires Suffix(part, whole)
    ensures Suffix(part + [x], whole + [x])
  {
  }

  // ---- A job goes back to the head of its queue ----

  /** No job ahead of position `i` belongs to its line. */
  ghost predicate FirstOfLine(q: seq<Job>, i: nat)
    requires i < |q|
  {
    forall k :: 0 <= k < i ==> !SameLine(q[k], q[i])
  }

  ghost function ToFront(q: seq<Job>, i: nat): seq<Job>
    requires i < |q|
  {
    [q[i]] + RemoveAt(q, i)
  }

  lemma ToFrontIndex(q: seq<Job>, i: nat)
    requires i < |q|
    ensures |ToFront(q, i)| == |q|
    ensures forall k :: 0 <= k < |q| ==> ToFront(q, i)[k] == q[if k == 0 then i else if k <= i then k - 1 else k]
  {
  }

  lemma RequeueKeepsQueue(ledger: seq<Entry>, q: seq<Job>, p: Priority, i: nat)
    requires i < |q| && QueueFiled(ledger, q, p) && QueueDistinct(q) && QueueOrdered(q) && FirstOfLine(q, i)
    ensures QueueFiled(ledger, ToFront(q, i), p) && QueueDistinct(ToFront(q, i)) && QueueOrdered(ToFront(q, i))
  {
    hide Filed;
    ToFrontIndex(q, i);
    hide ToFront;
  }

  lemma RequeueKeepsKeys(critical: seq<Job>, normal: seq<Job>, i: nat)
    requires KeysUnique(critical) && KeysUnique(normal) && KeysDisjoint(critical, normal)
    ensures i < |critical| ==> KeysUnique(ToFront(critical, i)) && KeysDisjoint(ToFront(critical, i), normal)
    ensures i < |normal| ==> KeysUnique(ToFront(normal, i)) && KeysDisjoint(critical, ToFront(normal, i))
  {
    if i < |critical| {
      ToFrontIndex(critical, i);
    }
    if i < |normal| {
      ToFrontIndex(normal, i);
    }
    hide ToFront;
  }

  lemma RequeueKeepsPrecede(ledger: seq<Entry>, launches: seq<nat>, q: seq<Job>, i: nat)
    requires i < |q| && LaunchesPrecede(ledger, launches, q)
    ensures LaunchesPrecede(ledger, launches, ToFront(q, i))
  {
    ToFrontIndex(q, i);
    hide ToFront, SameLine;
  }

  lemma RequeueMembers(q: seq<Job>, i: nat)
    requires i < |q|
    ensures forall job :: job in q ==> job in ToFront(q, i)
  {
    RemoveMembers(q, i);
    assert ToFront(q, i)[0] == q[i];
  }

  // ---- A job starts ----

  lemma StartKeepsChildren(ledger: seq<Entry>, children: seq<Child>, launches: seq<nat>, c: Child)
    requires ChildrenFiled(ledger, children, launches) && ChildrenDistinct(children)
    requires RunningFound(ledger, children)
    requires c.job.ticket < |ledger| && ledger[c.job.ticket] == Entry(c.job, Pending)
    requires c.jobId == |launches| + 1
    ensures var t := c.job.ticket;
            var ledger' := ledger[t := ledger[t].(fate := Running(c.jobId))];
            ChildrenFiled(ledger', children + [c], launches + [t]) && ChildrenDistinct(children + [c])
            && RunningFound(ledger', children + [c])
  {
    var t := c.job.ticket;
    var ledger' := ledger[t := ledger[t].(fate := Running(c.jobId))];
    var children' := children + [c];
    assert children'[|children|] == c;
    forall i | 0 <= i < |children| ensures Filed(ledger', children[i].job, Running(children[i].jobId)) {
      assert Filed(ledger, children[i].job, Running(children[i].jobId));
    }
    forall s | 0 <= s < |ledger'| && ledger'[s].fate.Running? ensures HasChild(children', ledger'[s].fate.jobId) {
      if s != t {
        assert HasChild(children, ledger[s].fate.jobId);
        var i :| 0 <= i < |children| && children[i].jobId == ledger[s].fate.jobId;
        assert children'[i] == children[i];
      }
    }
  }

  lemma StartKeepsExclusion(children: seq<Child>, c: Child)
    requires SerialExclusive(children) && !Blocked(c.job.request.serialKey, children)
    ensures SerialExclusive(children + [c])
  {
  }

  lemma StartKeepsLaunches(ledger: seq<Entry>, launches: seq<nat>, t: nat)
    requires LaunchesFiled(ledger, launches) && t < |ledger| && ledger[t].fate.Pending?
    ensures LaunchesFiled(ledger[t := ledger[t].(fate := Running(|launches| + 1))], launches + [t])
  {
  }

  lemma StartKeepsOrder(ledger: seq<Entry>, launches: seq<nat>, q: seq<Job>, i: nat)
    requires i < |q| && LedgerOk(ledger) && LaunchesOrdered(ledger, launches) && LaunchesPrecede(ledger, launches, q)
    requires QueueOrdered(q) && FirstOfLine(q, i)
    requires q[i].ticket < |ledger| && ledger[q[i].ticket].job == q[i]
    ensures LaunchesOrdered(ledger, launches + [q[i].ticket])
    ensures LaunchesPrecede(ledger, launches + [q[i].ticket], RemoveAt(q, i))
  {
    hide SameLine;
    var job, launches', r := q[i], launches + [q[i].ticket], RemoveAt(q, i);
    SameLineSymmetric();
    assert forall k :: 0 <= k < |r| ==> r[k] == q[if k < i then k else k + 1];
  }

  lemma SameLineSymmetric()
    ensures forall a, b :: SameLine(a, b) <==> SameLine(b, a)
  {
  }

  lemma StartPrecedesOther(ledger: seq<Entry>, launches: seq<nat>, q: seq<Job>, p: Priority, t: nat)
    requires LaunchesPrecede(ledger, launches, q) && QueueFiled(ledger, q, p)
    requires t < |ledger| && ledger[t].job.request.priority != p
    ensures LaunchesPrecede(ledger, launches + [t], q)
  {
    hide Filed;
    var launches' := launches + [t];
    forall a, i | 0 <= a < |launches'| && 0 <= i < |q| && SameLine(ledger[launches'[a]].job, q[i])
      ensures launches'[a] < q[i].ticket {
      assert q[i].request.priority == p;
    }
  }

  // ---- A child finishes or changes ----

  lemma FinishKeepsChildren(ledger: seq<Entry>, children: seq<Child>, launches: seq<nat>, i: nat, fate: Fate)
    requires i < |children| && !fate.Running?
    requires ChildrenFiled(ledger, children, launches) && ChildrenDistinct(children)
    ensures var t := children[i].job.ticket;
            t < |ledger| && ChildrenFiled(ledger[t := ledger[t].(fate := fate)], RemoveAt(children, i), launches)
            && ChildrenDistinct(RemoveAt(children, i))
  {
    assert Filed(ledger, children[i].job, Running(children[i].jobId));
    var t, r := children[i].job.ticket, RemoveAt(children, i);
    assert forall k :: 0 <= k < |r| ==> r[k] == children[if k < i then k else k + 1];
    hide RemoveAt;
    var ledger' := ledger[t := ledger[t].(fate := fate)];
    forall k | 0 <= k < |r| ensures Filed(ledger', r[k].job, Running(r[k].jobId)) {
      assert Filed(ledger, r[k].job, Running(r[k].jobId));
    }
  }

  lemma FinishKeepsRunning(ledger: seq<Entry>, children: seq<Child>, launches: seq<nat>, i: nat, fate: Fate)
    requires i < |children| && !fate.Running? && LaunchesFiled(ledger, launches)
    requires ChildrenFiled(ledger, children, launches) && RunningFound(ledger, children)
    ensures var t := children[i].job.ticket;
            t < |ledger| && RunningFound(ledger[t := ledger[t].(fate := fate)], RemoveAt(children, i))
  {
    assert Filed(ledger, children[i].job, Running(children[i].jobId));
    var t, r := children[i].job.ticket, RemoveAt(children, i);
    var ledger' := ledger[t := ledger[t].(fate := fate)];
    forall s | 0 <= s < |ledger'| && ledger'[s].fate.Running? ensures HasChild(r, ledger'[s].fate.jobId) {
      assert HasChild(children, ledger[s].fate.jobId);
      var k :| 0 <= k < |children| && children[k].jobId == ledger[s].fate.jobId;
      FinishedIsAnother(ledger, children, launches, i, k, s);
      assert r[if k < i then k else k - 1] == children[k];
    }
  }

  lemma FinishedIsAnother(ledger: seq<Entry>, children: seq<Child>, launches: seq<nat>, i: nat, k: nat, s: nat)
    requires i < |children| && k < |children| && s < |ledger| && s != children[i].job.ticket
    requires ChildrenFiled(ledger, children, launches) && RunningFound(ledger, children)
    requires LaunchesFiled(ledger, launches)
    requires ledger[s].fate == Running(children[k].jobId)
    ensures k != i
  {
    assert Filed(ledger, children[k].job, Running(children[k].jobId));
  }

  lemma RemoveKeepsExclusion(children: seq<Child>, i: nat)
    requires i < |children| && SerialExclusive(children)
    ensures SerialExclusive(RemoveAt(children, i))
  {
    var r := RemoveAt(children, i);
    assert forall k :: 0 <= k < |r| ==> r[k] == children[if k < i then k else k + 1];
  }

  lemma FinishKeepsLaunches(ledger: seq<Entry>, launches: seq<nat>, t: nat, fate: Fate)
    requires LaunchesFiled(ledger, launches) && t < |ledger|
    requires ledger[t].fate.Running? && fate.Done? && fate.finishedId == ledger[t].fate.jobId
    ensures LaunchesFiled(ledger[t := ledger[t].(fate := fate)], launches)
  {
  }

  /** Changing a child's pid, times or flags leaves its identity alone. */
  lemma UpdateKeepsChildren(ledger: seq<Entry>, children: seq<Child>, launches: seq<nat>, i: nat, c: Child)
    requires i < |children| && c.jobId == children[i].jobId && c.job == children[i].job
    requires ChildrenFiled(ledger, children, launches) && ChildrenDistinct(children)
    requires SerialExclusive(children) && RunningFound(ledger, children)
    ensures ChildrenFiled(ledger, children[i := c], launches) && ChildrenDistinct(children[i := c])
    ensures SerialExclusive(children[i := c]) && RunningFound(ledger, children[i := c])
  {
    hide Filed;
    var children' := children[i := c];
    assert forall k :: 0 <= k < |children| ==>
             children'[k].jobId == children[k].jobId && children'[k].job == children[k].job;
    forall t | 0 <= t < |ledger| && ledger[t].fate.Running? ensures HasChild(children', ledger[t].fate.jobId) {
      assert HasChild(children, ledger[t].fate.jobId);
      var k :| 0 <= k < |children| && children[k].jobId == ledger[t].fate.jobId;
      assert children'[k].jobId == ledger[t].fate.jobId;
    }
  }

  // ---- Everything pending is discarded ----

  lemma DiscardKeepsChildren(ledger: seq<Entry>, children: seq<Child>, launches: seq<nat>)
    requires ChildrenFiled(ledger, children, launches) && RunningFound(ledger, children)
    ensures ChildrenFiled(DiscardAll(ledger), children, launches) && RunningFound(DiscardAll(ledger), children)
  {
  }

  /** Jobs stay, and only tickets that are neither running nor done change fate. */
  ghost predicate QuietChange(ledger: seq<Entry>, l: seq<Entry>) {
    && |l| == |ledger|
    && forall t :: 0 <= t < |l| ==> l[t].job == ledger[t].job && QuietFate(ledger[t].fate, l[t].fate)
  }

  ghost predicate QuietFate(before: Fate, after: Fate) {
    after == before || (before.Pending? && after.Discarded?)
  }

  lemma DiscardIsQuiet(ledger: seq<Entry>)
    ensures QuietChange(ledger, DiscardAll(ledger))
  {
  }

  lemma QuietKeepsLaunches(ledger: seq<Entry>, l: seq<Entry>, launches: seq<nat>)
    requires LaunchesFiled(ledger, launches) && QuietChange(ledger, l)
    ensures LaunchesFiled(l, launches)
  {
  }

  lemma QuietKeepsOrder(ledger: seq<Entry>, l: seq<Entry>, launches: seq<nat>)
    requires LaunchesOrdered(ledger, launches) && QuietChange(ledger, l)
    ensures LaunchesOrdered(l, launches) && LaunchesPrecede(l, launches, [])
  {
    hide SameLine, QuietFate;
    assert forall a :: 0 <= a < |launches| ==> l[launches[a]].job == ledger[launches[a]].job;
  }

  lemma DiscardKeepsPosted(ledger: seq<Entry>, posted: seq<Delivery>)
    requires PostedSound(ledger, posted) && PostedComplete(ledger, posted)
    ensures PostedSound(DiscardAll(ledger), posted) && PostedComplete(DiscardAll(ledger), posted)
  {
  }
}
