/** What a supervisor's response does to the job it names, and what the loss of the supervisor does to all. */
module HookResponses {
  import opened HookCodec
  import opened HookState
  import opened HookLedger
  import opened HookInvariants
  import opened HookProgress
  import opened HookProtocol
  import opened HookChannel
  import opened HookTheorems
  import opened HookIteration
  import HookExecutorFacts
  import S = HookScheduling

  // ---- One response ----

  /** The result of a job that ran as `pid` and ended with `status`, as its callback is given it. */
  function Outcome(c: Child, pid: int, status: WaitStatus, execErrno: int): HookResult {
    HookResult(c.job.request.argv, pid,
               match status case Exited(code) => code case _ => -1,
               match status case Signaled(signal) => signal case _ => 0,
               execErrno, c.timedOut)
  }

  /** Child `i` has left the table finished with `result`, counted and its callback queued; nothing else changed. */
  predicate Settles(e: Exec, e': Exec, i: nat, cause: Cause, result: HookResult)
    requires i < |e.children|
  {
    var c := e.children[i];
    && e'.children == e.children[..i] + e.children[i + 1..]
    && S.Became(e, e', c.job.ticket, Done(c.jobId, cause, result))
    && e'.completed == e.completed + 1
    && e'.timedOut == (if result.timedOut then e.timedOut + 1 else e.timedOut)
    && e'.failed == (if result.execErrno != 0 || result.exitCode != 0 || result.termSignal != 0
                     then e.failed + 1 else e.failed)
    && e'.completions == (if c.job.request.hasCallback then e.completions + [Delivery(c.job.ticket, result)]
                          else e.completions)
    && e'.posted == (if c.job.request.hasCallback then e.posted + [Delivery(c.job.ticket, result)] else e.posted)
    && e' == e.(children := e'.children, ledger := e'.ledger, completed := e'.completed, timedOut := e'.timedOut,
                failed := e'.failed, completions := e'.completions, posted := e'.posted)
  }

  lemma FinishSettles(e: Exec, i: nat, status: WaitStatus, execErrno: int, cause: Cause)
    requires i < |e.children| && e.children[i].job.ticket < |e.ledger|
    ensures Settles(e, Finish(e, i, status, execErrno, cause), i, cause,
                    Outcome(e.children[i], e.children[i].pid, status, execErrno))
  {
  }

  lemma ChildPlace(e: Exec, i: nat)
    requires Inv(e) && i < |e.children|
    ensures IndexOf(e.children, e.children[i].jobId) == i
    ensures var c := e.children[i];
            && c.job.ticket < |e.ledger| && e.ledger[c.job.ticket] == Entry(c.job, Running(c.jobId))
            && 1 <= c.jobId <= |e.launches| && e.launches[c.jobId - 1] == c.job.ticket
  {
    assert ChildrenOk(e);
    hide Inv;
    RunningChild(e, i);
    DistinctPlace(e.children, i);
    hide IndexOf;
  }

  lemma DistinctPlace(children: seq<Child>, i: nat)
    requires ChildrenDistinct(children) && i < |children|
    ensures IndexOf(children, children[i].jobId) == i
  {
  }

  /** A response for child `i`: an acknowledgement gives it its pid, a report settles it. */
  predicate Answered(e: Exec, e': Exec, i: nat, r: Response)
    requires i < |e.children|
  {
    match r
    case Launched(_, pid) => e' == e.(children := e.children[i := e.children[i].(pid := pid)])
    case Finished(_, pid, status, execErrno) =>
      Settles(e, e', i, OwnResponse, Outcome(e.children[i], pid, status, execErrno))
  }

  lemma ResponseAnswers(e: Exec, i: nat, r: Response)
    requires Inv(e) && i < |e.children| && e.children[i].jobId == r.jobId
    requires r.Finished? ==> e.children[i].pid < 0 || e.children[i].pid == r.pid
    ensures Answered(e, Receive(e, r), i, r)
  {
    ChildPlace(e, i);
    hide Inv, IndexOf, Finish, Settles;
    if r.Finished? {
      ReportAnswers(e, i, r);
      hide SetPid;
    }
  }

  lemma ReportAnswers(e: Exec, i: nat, r: Response)
    requires i < |e.children| && r.Finished? && e.children[i].job.ticket < |e.ledger|
    requires e.children[i].pid < 0 || e.children[i].pid == r.pid
    ensures var e1 := if e.children[i].pid < 0 then SetPid(e, i, r.pid) else e;
            && i < |e1.children|
            && Settles(e, Finish(e1, i, r.status, r.execErrno, OwnResponse), i, OwnResponse,
                       Outcome(e.children[i], r.pid, r.status, r.execErrno))
  {
    hide Finish, Settles;
    var e1 := if e.children[i].pid < 0 then SetPid(e, i, r.pid) else e;
    assert e1.children[i] == e.children[i].(pid := r.pid);
    FinishSettles(e1, i, r.status, r.execErrno, OwnResponse);
    SettlesBefore(e, e1, Finish(e1, i, r.status, r.execErrno, OwnResponse), i,
                  Outcome(e.children[i], r.pid, r.status, r.execErrno));
  }

  lemma SettlesBefore(e: Exec, e1: Exec, e': Exec, i: nat, result: HookResult)
    requires i < |e.children| && e1 == e.(children := e1.children) && |e1.children| == |e.children|
    requires e1.children[i].job == e.children[i].job && e1.children[i].jobId == e.children[i].jobId
    requires forall k :: 0 <= k < |e.children| && k != i ==> e1.children[k] == e.children[k]
    requires Settles(e1, e', i, OwnResponse, result)
    ensures Settles(e, e', i, OwnResponse, result)
  {
    assert e1.children[..i] + e1.children[i + 1..] == e.children[..i] + e.children[i + 1..];
  }

  lemma StrangerIgnored(e: Exec, r: Response)
    requires !HasChild(e.children, r.jobId)
    ensures Receive(e, r) == e
  {
    var i := IndexOf(e.children, r.jobId);
    hide IndexOf, SetPid, Finish;
    assert i == |e.children|;
  }

  /** In a reachable world a report agrees with the pid already known. */
  lemma ReportAgrees(w: World, i: nat)
    requires WorldInv(w) && w.responses != [] && i < |w.exec.children|
    requires w.exec.children[i].jobId == w.responses[0].jobId && w.responses[0].Finished?
    ensures w.exec.children[i].pid < 0 || w.exec.children[i].pid == w.responses[0].pid
  {
    assert PidsOk(w) && RecordOk(w) && Truthful(w.record, w.responses[0]);
    hide WorldInv, PidsOk, RecordOk, Truthful;
    PidAgrees(w, i, w.responses[0]);
  }

  lemma StepAnswers(w: World)
    requires WorldInv(w) && w.exec.connected && w.responses != []
    ensures var e, e', r := w.exec, Next(w, ReceiveStep).exec, w.responses[0];
            && (forall i :: 0 <= i < |e.children| && e.children[i].jobId == r.jobId ==> Answered(e, e', i, r))
            && (!HasChild(e.children, r.jobId) ==> e' == e)
            && (r.Finished? ==> !HasChild(e'.children, r.jobId))
  {
    var e, r := w.exec, w.responses[0];
    ReceiveIs(w);
    hide Next, Receive, Answered;
    if HasChild(e.children, r.jobId) {
      forall i | 0 <= i < |e.children| && e.children[i].jobId == r.jobId ensures Answered(e, Receive(e, r), i, r) {
        if r.Finished? {
          ReportAgrees(w, i);
        }
        hide WorldInv;
        ResponseAnswers(e, i, r);
      }
      var i :| 0 <= i < |e.children| && e.children[i].jobId == r.jobId;
      if r.Finished? {
        SettledIsGone(e, Receive(e, r), i, r);
      }
    } else {
      StrangerIgnored(e, r);
    }
  }

  lemma SettledIsGone(e: Exec, e': Exec, i: nat, r: Response)
    requires Inv(e) && i < |e.children| && r.Finished? && e.children[i].jobId == r.jobId && Answered(e, e', i, r)
    ensures !HasChild(e'.children, r.jobId)
  {
    assert ChildrenDistinct(e.children);
    hide Inv;
    ChildrenAfter(e, e', i, r);
    hide Answered;
    assert forall k :: 0 <= k < |e'.children| ==> e'.children[k] == e.children[if k < i then k else k + 1];
  }

  lemma ChildrenAfter(e: Exec, e': Exec, i: nat, r: Response)
    requires i < |e.children| && r.Finished? && Answered(e, e', i, r)
    ensures e'.children == e.children[..i] + e.children[i + 1..]
  {
    hide S.Became;
  }

  /**
   In every reachable world with a connection the response at the front does what it says to the child
   it names, and to nothing else: an acknowledgement gives the child its pid; a report removes it from
   the table, files its outcome under its id, counts it and queues its callback. A response that names
   no child changes nothing.
   */
  lemma ResponseSettlesJob(w: World)
    requires Reachable(w) && w.exec.connected && w.responses != []
    ensures var e, e', r := w.exec, Next(w, ReceiveStep).exec, w.responses[0];
            && (forall i :: 0 <= i < |e.children| && e.children[i].jobId == r.jobId ==> Answered(e, e', i, r))
            && (!HasChild(e.children, r.jobId) ==> e' == e)
            && (r.Finished? ==> !HasChild(e'.children, r.jobId))
  {
    hide WorldInv, Reachable, Next, Answered;
    ReachableKeeps(w);
    StepAnswers(w);
  }

  // ---- A whole inbox ----

  lemma {:induction false} ReceiveAllGrows(e: Exec, inbox: seq<Incoming>, now: int, gone: bool)
    requires Inv(e)
    ensures HistoryGrows(e, ReceiveAll(e, inbox, now, gone))
    decreases |inbox|
  {
    hide Core, Receive, FailSupervisor, HistoryGrows, Advance;
    NoChange(e, e);
    if e.connected && inbox != [] {
      match inbox[0]
      case Empty =>
      case Interrupted => ReceiveAllGrows(e, inbox[1..], now, gone);
      case Broken(error) =>
        FailAdvances(e, error, now, gone);
        AdvanceGrows(e, FailSupervisor(e, error, now, gone));
      case Message(r) =>
        ReceiveGrows(e, r);
        ReceiveKeeps(e, r);
        ReceiveAllGrows(Receive(e, r), inbox[1..], now, gone);
        HistoryChain(e, Receive(e, r), ReceiveAll(Receive(e, r), inbox[1..], now, gone));
    }
  }

  lemma HistoryChain(a: Exec, b: Exec, c: Exec)
    requires HistoryGrows(a, b) && HistoryGrows(b, c)
    ensures HistoryGrows(a, c)
  {
    GrowsTransitive(a.ledger, b.ledger, c.ledger);
    hide LedgerGrows;
  }

  /** The job launched under `id` has been finished by its own response with `result`. */
  predicate Settled(e: Exec, c: Child, result: HookResult) {
    && c.job.ticket < |e.ledger| && e.ledger[c.job.ticket] == Entry(c.job, Done(c.jobId, OwnResponse, result))
    && (c.job.request.hasCallback ==> Delivery(c.job.ticket, result) in e.posted)
  }

  lemma SettledLater(e: Exec, e': Exec, c: Child, result: HookResult)
    requires Settled(e, c, result) && HistoryGrows(e, e')
    ensures Settled(e', c, result)
  {
  }

  lemma SettlesIsSettled(e: Exec, e': Exec, i: nat, result: HookResult)
    requires Inv(e) && i < |e.children| && Settles(e, e', i, OwnResponse, result)
    ensures Settled(e', e.children[i], result)
  {
    ChildPlace(e, i);
    hide Inv;
  }

  lemma DoneIsGone(e: Exec, c: Child, result: HookResult)
    requires Inv(e) && Settled(e, c, result) && 1 <= c.jobId <= |e.launches| && e.launches[c.jobId - 1] == c.job.ticket
    ensures !HasChild(e.children, c.jobId)
  {
    assert ChildrenOk(e) && LaunchesOk(e);
    hide Inv, ChildrenOk, LaunchesOk;
    LaunchIsRunningOrDone(e, c.jobId - 1);
  }

  lemma SurvivesReport(e: Exec, e': Exec, i: nat, k: nat, result: HookResult) returns (i': nat)
    requires i < |e.children| && k < |e.children| && i != k && Settles(e, e', k, OwnResponse, result)
    ensures i' < |e'.children| && e'.children[i'] == e.children[i] && e'.connected == e.connected
  {
    hide S.Became;
    i' := if k < i then i - 1 else i;
  }

  /** The child's place after a response that does not finish it. */
  lemma Survives(e: Exec, e': Exec, i: nat, r: Response) returns (i': nat)
    requires i < |e.children| && (r.Finished? ==> r.jobId != e.children[i].jobId)
    requires ChildrenDistinct(e.children)
    requires forall k :: 0 <= k < |e.children| && e.children[k].jobId == r.jobId ==> Answered(e, e', k, r)
    requires !HasChild(e.children, r.jobId) ==> e' == e
    ensures i' < |e'.children| && e'.connected == e.connected
    ensures e'.children[i'] == if r.Launched? && r.jobId == e.children[i].jobId then e.children[i].(pid := r.pid)
                               else e.children[i]
  {
    i' := i;
    if HasChild(e.children, r.jobId) {
      var k :| 0 <= k < |e.children| && e.children[k].jobId == r.jobId;
      assert Answered(e, e', k, r);
      hide Settles;
      if r.Finished? {
        i' := SurvivesReport(e, e', i, k, Outcome(e.children[k], r.pid, r.status, r.execErrno));
      }
    }
  }

  /** Whoever reads a loop of `recv`s, what it has read before place `k` settles or skips. */
  predicate ReadsOn(inbox: seq<Incoming>, k: nat, id: nat)
    requires k <= |inbox|
  {
    forall j :: 0 <= j < k ==>
      inbox[j].Interrupted? || (inbox[j].Message? && !(inbox[j].response.Finished? && inbox[j].response.jobId == id))
  }

  /**
   In every reachable world, with the supervisor moving between the calls: the first report for a
   running job that a loop of `recv`s reads settles that job, whatever it reads before and after.
   */
  lemma InboxSettlesJob(w: World, gaps: seq<seq<Step>>, inbox: seq<Incoming>, k: nat, i: nat, now: int, gone: bool)
    requires WorldInv(w) && w.exec.connected && AllGapsMove(gaps) && Readable(w, gaps, inbox)
    requires i < |w.exec.children| && k < |inbox| && ReadsOn(inbox, k, w.exec.children[i].jobId)
    requires inbox[k].Message? && inbox[k].response.Finished? && inbox[k].response.jobId == w.exec.children[i].jobId
    ensures var e', c, r := ReceiveAll(w.exec, inbox, now, gone), w.exec.children[i], inbox[k].response;
            Settled(e', c, Outcome(c, r.pid, r.status, r.execErrno)) && !HasChild(e'.children, c.jobId)
    decreases |inbox|
  {
    hide WorldInv, Inv, Next, Run, Receive, Readable, ReceiveAll, AllGapsMove, AllMove, Settled, Answered, HasChild;
    hide HistoryGrows, Outcome;
    var e, c, w1 := w.exec, w.exec.children[i], Run(w, HookIteration.First(gaps));
    var r, r0 := inbox[k].response, inbox[0];
    var result, e' := Outcome(c, r.pid, r.status, r.execErrno), ReceiveAll(e, inbox, now, gone);
    GapMoves(gaps);
    MovesKeep(w, HookIteration.First(gaps));
    ReadableHead(w, gaps, inbox);
    ReceiveAllHead(e, inbox, now, gone);
    if r0.Interrupted? {
      InboxSettlesJob(w1, Rest(gaps), inbox[1..], k - 1, i, now, gone);
    } else {
      var w2 := Next(w1, ReceiveStep);
      ReadOne(w1);
      if k == 0 {
        AnsweredSettles(e, w2.exec, i, r);
        InvOf(w2);
        ReceiveAllGrows(w2.exec, inbox[1..], now, gone);
        SettledLater(w2.exec, e', c, result);
      } else {
        DistinctChildren(w);
        var i' := Survives(e, w2.exec, i, r0.response);
        InboxSettlesJob(w2, Rest(gaps), inbox[1..], k - 1, i', now, gone);
        SettledAlike(e', c, w2.exec.children[i'], r);
      }
    }
    SettledAtEnd(w, c, i, inbox, now, gone, result);
  }

  lemma DistinctChildren(w: World)
    requires WorldInv(w)
    ensures ChildrenDistinct(w.exec.children) && Inv(w.exec)
  {
  }

  lemma ReadableHead(w: World, gaps: seq<seq<Step>>, inbox: seq<Incoming>)
    requires Readable(w, gaps, inbox) && inbox != []
    ensures var w1 := Run(w, HookIteration.First(gaps));
            && (inbox[0].Interrupted? ==> Readable(w1, Rest(gaps), inbox[1..]))
            && (inbox[0].Message? ==>
                  w1.responses != [] && w1.responses[0] == inbox[0].response
                  && Readable(Next(w1, ReceiveStep), Rest(gaps), inbox[1..]))
  {
    hide Run, Next;
  }

  lemma ReceiveAllHead(e: Exec, inbox: seq<Incoming>, now: int, gone: bool)
    requires e.connected && inbox != []
    ensures inbox[0].Interrupted? ==> ReceiveAll(e, inbox, now, gone) == ReceiveAll(e, inbox[1..], now, gone)
    ensures inbox[0].Message? ==>
              ReceiveAll(e, inbox, now, gone) == ReceiveAll(Receive(e, inbox[0].response), inbox[1..], now, gone)
  {
    hide Receive, FailSupervisor;
  }

  lemma ReadOne(w: World)
    requires WorldInv(w) && w.exec.connected && w.responses != []
    ensures var w', r := Next(w, ReceiveStep), w.responses[0];
            && WorldInv(w') && w'.exec == Receive(w.exec, r) && w'.exec.connected && Inv(w.exec)
            && (forall i :: 0 <= i < |w.exec.children| && w.exec.children[i].jobId == r.jobId ==>
                  Answered(w.exec, w'.exec, i, r))
            && (!HasChild(w.exec.children, r.jobId) ==> w'.exec == w.exec)
  {
    StepAnswers(w);
    StepKeeps(w, ReceiveStep);
    ReceiveIs(w);
    HookExecutorFacts.ReceiveStaysConnected(w.exec, w.responses[0]);
    InvOf(w);
    hide WorldInv, Next, Receive, Answered;
  }

  lemma SettledAtEnd(w: World, c: Child, i: nat, inbox: seq<Incoming>, now: int, gone: bool, result: HookResult)
    requires WorldInv(w) && i < |w.exec.children| && c == w.exec.children[i]
    requires Settled(ReceiveAll(w.exec, inbox, now, gone), c, result)
    ensures !HasChild(ReceiveAll(w.exec, inbox, now, gone).children, c.jobId)
  {
    hide WorldInv, Inv, ReceiveAll, Settled, LedgerGrows, HasChild, IndexOf;
    InvOf(w);
    ChildPlace(w.exec, i);
    ReceiveAllKeeps(w.exec, inbox, now, gone);
    ReceiveAllGrows(w.exec, inbox, now, gone);
    LaunchesStay(w.exec, ReceiveAll(w.exec, inbox, now, gone), c);
    DoneIsGone(ReceiveAll(w.exec, inbox, now, gone), c, result);
  }

  lemma LaunchesStay(e: Exec, e': Exec, c: Child)
    requires HistoryGrows(e, e') && 1 <= c.jobId <= |e.launches| && e.launches[c.jobId - 1] == c.job.ticket
    ensures c.jobId <= |e'.launches| && e'.launches[c.jobId - 1] == c.job.ticket
  {
    hide LedgerGrows;
  }

  lemma SettledAlike(e: Exec, c: Child, c': Child, r: Response)
    requires r.Finished? && Settled(e, c', Outcome(c', r.pid, r.status, r.execErrno)) && c' == c.(pid := c'.pid)
    ensures Settled(e, c, Outcome(c, r.pid, r.status, r.execErrno))
  {
  }

  lemma AnsweredSettles(e: Exec, e': Exec, i: nat, r: Response)
    requires Inv(e) && i < |e.children| && r.Finished? && Answered(e, e', i, r)
    ensures Settled(e', e.children[i], Outcome(e.children[i], r.pid, r.status, r.execErrno))
  {
    hide Inv;
    SettlesIsSettled(e, e', i, Outcome(e.children[i], r.pid, r.status, r.execErrno));
  }

  lemma {:induction false} MovesKeep(w: World, moves: seq<Step>)
    requires WorldInv(w) && AllMove(moves)
    ensures WorldInv(Run(w, moves)) && Run(w, moves).exec == w.exec
  {
    hide WorldInv, Run;
    MovesKeepExec(w, moves);
    RunKeeps(w, moves);
  }

  /** No place of the inbox but `k` names the job, and nothing breaks the stream. */
  predicate OnlyAt(inbox: seq<Incoming>, k: nat, id: nat)
    requires k < |inbox|
  {
    && (forall j :: 0 <= j < |inbox| ==> !inbox[j].Broken?)
    && (forall j :: 0 <= j < k ==> !inbox[j].Empty?)
    && (forall j :: 0 <= j < |inbox| && j != k && inbox[j].Message? ==> inbox[j].response.jobId != id)
  }

  /** An acknowledgement among responses for other jobs gives its own child the pid, and no other field. */
  lemma {:induction false} InboxNamesProcess(e: Exec, inbox: seq<Incoming>, k: nat, i: nat, now: int, gone: bool)
    requires Inv(e) && e.connected && i < |e.children| && k < |inbox| && OnlyAt(inbox, k, e.children[i].jobId)
    requires inbox[k].Message? && inbox[k].response.Launched? && inbox[k].response.jobId == e.children[i].jobId
    ensures e.children[i].(pid := inbox[k].response.pid) in ReceiveAll(e, inbox, now, gone).children
    decreases |inbox|
  {
    hide Inv, Receive, FailSupervisor, ReceiveAll;
    var r0 := inbox[0];
    ReceiveAllHead(e, inbox, now, gone);
    if r0.Interrupted? {
      InboxNamesProcess(e, inbox[1..], k - 1, i, now, gone);
    } else if k > 0 {
      var i' := StrangerKeeps(e, i, r0.response);
      ReceiveKeeps(e, r0.response);
      InboxNamesProcess(Receive(e, r0.response), inbox[1..], k - 1, i', now, gone);
    } else {
      ResponseAnswers(e, i, r0.response);
      ReceiveKeeps(e, r0.response);
      HookExecutorFacts.ReceiveStaysConnected(e, r0.response);
      OthersKeep(Receive(e, r0.response), inbox[1..], i, now, gone);
    }
  }

  /** A response for another job leaves the child as it is. */
  lemma StrangerKeeps(e: Exec, i: nat, r: Response) returns (i': nat)
    requires Inv(e) && i < |e.children| && r.jobId != e.children[i].jobId
    ensures var e' := Receive(e, r);
            i' < |e'.children| && e'.children[i'] == e.children[i] && e'.connected == e.connected
  {
    HookExecutorFacts.ReceiveStaysConnected(e, r);
    i' := i;
    if HasChild(e.children, r.jobId) {
      var k :| 0 <= k < |e.children| && e.children[k].jobId == r.jobId;
      ChildPlace(e, k);
      hide Inv, IndexOf;
      i' := ReceiveKeepsOther(e, k, i, r);
    } else {
      StrangerIgnored(e, r);
    }
  }

  lemma ReceiveKeepsOther(e: Exec, k: nat, i: nat, r: Response) returns (i': nat)
    requires k < |e.children| && i < |e.children| && i != k && IndexOf(e.children, r.jobId) == k
    ensures var e' := Receive(e, r); i' < |e'.children| && e'.children[i'] == e.children[i]
  {
    hide IndexOf;
    if r.Finished? {
      var e1 := if e.children[k].pid < 0 then SetPid(e, k, r.pid) else e;
      FinishedChildren(e1, k, r.status, r.execErrno);
      hide Finish;
      i' := if k < i then i - 1 else i;
    } else {
      i' := i;
    }
  }

  lemma FinishedChildren(e: Exec, k: nat, status: WaitStatus, execErrno: int)
    requires k < |e.children|
    ensures Finish(e, k, status, execErrno, OwnResponse).children == e.children[..k] + e.children[k + 1..]
  {
    hide ResultOf, Unsuccessful;
  }

  lemma {:induction false} OthersKeep(e: Exec, inbox: seq<Incoming>, i: nat, now: int, gone: bool)
    requires Inv(e) && e.connected && i < |e.children|
    requires forall j :: 0 <= j < |inbox| ==> !inbox[j].Broken?
    requires forall j :: 0 <= j < |inbox| && inbox[j].Message? ==> inbox[j].response.jobId != e.children[i].jobId
    ensures e.children[i] in ReceiveAll(e, inbox, now, gone).children
    decreases |inbox|
  {
    hide Inv, Receive, FailSupervisor;
    if inbox != [] && inbox[0].Message? {
      var i' := StrangerKeeps(e, i, inbox[0].response);
      ReceiveKeeps(e, inbox[0].response);
      OthersKeep(Receive(e, inbox[0].response), inbox[1..], i', now, gone);
    } else if inbox != [] && inbox[0].Interrupted? {
      OthersKeep(e, inbox[1..], i, now, gone);
    }
  }

  // ---- Losing the supervisor ----

  /** The job of `c` has been finished with the failure of its supervisor. */
  predicate GivenUp(e: Exec, c: Child, failure: int) {
    var result := Outcome(c, c.pid, Exited(127), failure);
    && c.job.ticket < |e.ledger| && e.ledger[c.job.ticket] == Entry(c.job, Done(c.jobId, SupervisorLost, result))
    && (c.job.request.hasCallback ==> Delivery(c.job.ticket, result) in e.posted)
  }

  lemma FirstIsGivenUp(e: Exec, failure: int, now: int)
    requires Core(e) && e.children != []
    ensures var e' := Finish(KillLost(e, now), 0, Exited(127), failure, SupervisorLost);
            Core(e') && e'.children == e.children[1..] && GivenUp(e', e.children[0], failure)
  {
    var e1 := KillLost(e, now);
    FlagsKeep(e, e1);
    FinishKeeps(e1, 0, Exited(127), failure, SupervisorLost);
    FirstIsRunning(e1);
    hide Core, KillLost;
    FinishSettles(e1, 0, Exited(127), failure, SupervisorLost);
    hide Finish;
    SettlesIsGivenUp(e1, Finish(e1, 0, Exited(127), failure, SupervisorLost), failure);
    hide Settles, GivenUp;
  }

  lemma FirstIsRunning(e: Exec)
    requires Core(e) && e.children != []
    ensures var c := e.children[0];
            c.job.ticket < |e.ledger| && e.ledger[c.job.ticket] == Entry(c.job, Running(c.jobId))
  {
    assert ChildrenOk(e);
    hide Core, ChildrenOk;
    RunningChild(e, 0);
  }

  lemma SettlesIsGivenUp(e: Exec, e': Exec, failure: int)
    requires e.children != [] && e.children[0].job.ticket < |e.ledger|
    requires e.ledger[e.children[0].job.ticket].job == e.children[0].job
    requires Settles(e, e', 0, SupervisorLost, Outcome(e.children[0], e.children[0].pid, Exited(127), failure))
    ensures GivenUp(e', e.children[0], failure) && e'.children == e.children[1..]
  {
    hide Outcome;
  }

  lemma StaysGivenUp(e: Exec, e': Exec, c: Child, failure: int)
    requires GivenUp(e, c, failure) && LedgerGrows(e.ledger, e'.ledger) && e.posted <= e'.posted
    ensures GivenUp(e', c, failure)
  {
    hide Outcome;
  }

  /** The state once the first child has been given up. */
  function AfterFirst(e: Exec, failure: int, now: int): Exec
    requires e.children != []
  {
    Finish(KillLost(e, now), 0, Exited(127), failure, SupervisorLost)
  }

  lemma FinishAllHead(e: Exec, failure: int, now: int)
    requires Core(e) && e.children != []
    ensures var e1 := AfterFirst(e, failure, now); var e' := FinishAll(e1, failure, now);
            && FinishAll(e, failure, now) == e' && LedgerGrows(e1.ledger, e'.ledger) && e1.posted <= e'.posted
            && Core(e1) && e1.children == e.children[1..] && GivenUp(e1, e.children[0], failure)
  {
    FirstIsGivenUp(e, failure, now);
    hide Core, Finish, KillLost, GivenUp, LedgerGrows;
    FinishAllAdvances(AfterFirst(e, failure, now), failure, now);
  }

  lemma {:induction false} AllAreGivenUp(e: Exec, failure: int, now: int, i: nat)
    requires Core(e) && i < |e.children|
    ensures GivenUp(FinishAll(e, failure, now), e.children[i], failure)
    decreases |e.children|
  {
    hide Core, GivenUp, LedgerGrows, FinishAll, AfterFirst;
    FinishAllHead(e, failure, now);
    var e1 := AfterFirst(e, failure, now);
    if i == 0 {
      StaysGivenUp(e1, FinishAll(e1, failure, now), e.children[0], failure);
    } else {
      assert e1.children[i - 1] == e.children[i];
      AllAreGivenUp(e1, failure, now, i - 1);
    }
  }

  /**
   Losing the supervisor for `error` finishes every running job with exit code 127 and that error (the
   broken-pipe error if there was none), and a restart is due after the delay unless the worker is to stop.
   */
  lemma LossSettlesEveryJob(e: Exec, error: int, now: int, gone: bool)
    requires Inv(e) && !e.supervisorFailed
    ensures var e', failure := FailSupervisor(e, error, now, gone), if error == 0 then 32 else error;
            && e'.supervisorFailed && !e'.connected && e'.children == [] && e'.lastError == failure
            && e'.critical == e.critical && e'.normal == e.normal
            && (!e.stopping ==> e'.restartAfter == now + e.options.restartDelay)
            && forall i :: 0 <= i < |e.children| ==> GivenUp(e', e.children[i], failure)
  {
    S.FailLines(e, error, now, gone);
    var failure := if error == 0 then EPIPE else error;
    var e1 := ReapSupervisor(e.(supervisorFailed := true, lastError := failure, connected := false), gone);
    hide Core, FinishAll, GivenUp;
    FlagsKeep(e, e1);
    var e2 := FinishAll(e1, failure, now);
    forall i | 0 <= i < |e1.children| ensures GivenUp(FailSupervisor(e, error, now, gone), e1.children[i], failure) {
      AllAreGivenUp(e1, failure, now, i);
      SameRecord(e2, FailSupervisor(e, error, now, gone), e1.children[i], failure);
    }
  }

  lemma SameRecord(e: Exec, e': Exec, c: Child, failure: int)
    requires GivenUp(e, c, failure) && e'.ledger == e.ledger && e'.posted == e.posted
    ensures GivenUp(e', c, failure)
  {
    hide Outcome;
  }
}
