/**
 What every step of the protocol keeps about the socket, the supervisor and its record.

 Requests in transit encode the jobs of their ids and have not been acted on; responses in transit
 are true of the job they name; the child table, the record and the results already filed agree.
 */
module HookChannel {
  import opened Bytes
  import opened HookCodec
  import opened HookDecoding
  import opened HookState
  import opened HookLedger
  import opened HookInvariants
  import opened HookProgress
  import opened HookProtocol

  // ---- Protocol invariant ----

  /** The command line of the job launched under an id. */
  ghost function LaunchedArgv(e: Exec, id: nat): seq<Argument> {
    if 1 <= id <= |e.launches| && e.launches[id - 1] < |e.ledger| then
      e.ledger[e.launches[id - 1]].job.request.argv
    else []
  }

  ghost predicate ArgvOk(ledger: seq<Entry>) {
    forall t :: 0 <= t < |ledger| ==> WellFormedArgv(ledger[t].job.request.argv)
  }

  ghost predicate IsRequest(bytes: seq<byte>, id: nat, argv: seq<Argument>) {
    id < U64_LIMIT && Encodable(argv) && bytes == LaunchBytes(id, argv) && argv != [] && argv[0] != []
  }

  /** Each request in transit is the encoding of its own job, has not been acted on, and ids only grow. */
  ghost predicate RequestsOk(w: World) {
    && |w.waiting| == |w.requests|
    && (forall i :: 0 <= i < |w.waiting| ==>
          && 1 <= w.waiting[i] <= |w.exec.launches|
          && w.waiting[i] !in w.record
          && IsRequest(w.requests[i], w.waiting[i], LaunchedArgv(w.exec, w.waiting[i])))
    && (forall i, k :: 0 <= i < k < |w.waiting| ==> w.waiting[i] < w.waiting[k])
  }

  ghost predicate RecordOk(w: World) {
    forall id :: id in w.record ==>
      && 1 <= id <= |w.exec.launches|
      && (w.record[id].Started? || w.record[id].Ended? ==> w.record[id].argv == LaunchedArgv(w.exec, id))
      && (w.record[id].Started? || w.record[id].Ended? ==> w.record[id].pid > 0)
  }

  ghost predicate TableOk(w: World) {
    && (forall i :: 0 <= i < |w.supervisor.table| ==>
          var p := w.supervisor.table[i];
          p.jobId in w.record && w.record[p.jobId].Started? && w.record[p.jobId].pid == p.pid)
    && (forall i, k :: 0 <= i < k < |w.supervisor.table| ==>
          w.supervisor.table[i].jobId != w.supervisor.table[k].jobId)
  }

  ghost predicate HasPid(record: map<nat, Execution>, id: nat, pid: int) {
    id in record && (record[id].Started? || record[id].Ended?) && record[id].pid == pid
  }

  /** A finished response reports what the supervisor recorded for that very job id. */
  ghost predicate Truthful(record: map<nat, Execution>, r: Response) {
    match r
    case Launched(id, pid) => HasPid(record, id, pid)
    case Finished(id, pid, status, execErrno) =>
      id in record &&
      match record[id]
      case Started(_, _) => false
      case Refused(error) => pid == -1 && status == Exited(127) && execErrno == error
      case Ended(_, p, s, x) => pid == p && status == s && execErrno == x
  }

  ghost predicate ResponsesOk(w: World) {
    forall i :: 0 <= i < |w.responses| ==> Truthful(w.record, w.responses[i])
  }

  ghost predicate PidsOk(w: World) {
    forall i :: 0 <= i < |w.exec.children| ==>
      w.exec.children[i].pid == -1 || HasPid(w.record, w.exec.children[i].jobId, w.exec.children[i].pid)
  }

  /** The result filed for a job that its own response finished. */
  ghost predicate Reports(record: map<nat, Execution>, id: nat, result: HookResult) {
    id in record &&
    match record[id]
    case Started(_, _) => false
    case Refused(error) =>
      result.processId == -1 && result.execErrno == error && result.exitCode == 127 && result.termSignal == 0
    case Ended(argv, pid, status, execErrno) =>
      && result.argv == argv && result.processId == pid && result.execErrno == execErrno
      && result.exitCode == (if status.Exited? then status.code else -1)
      && result.termSignal == (if status.Signaled? then status.signal else 0)
  }

  ghost predicate OwnOk(w: World) {
    forall t :: 0 <= t < |w.exec.ledger| ==>
      var fate := w.exec.ledger[t].fate;
      fate.Done? && fate.cause.OwnResponse? ==> Reports(w.record, fate.finishedId, fate.result)
  }

  ghost predicate Channel(w: World) {
    ArgvOk(w.exec.ledger) && RequestsOk(w) && RecordOk(w) && TableOk(w) && ResponsesOk(w) && PidsOk(w) && OwnOk(w)
  }

  ghost predicate WorldInv(w: World) {
    Inv(w.exec) && Channel(w)
  }

  lemma InitWorldOk(options: Options, pid: int)
    requires ValidOptions(options)
    ensures WorldInv(InitWorld(options, pid))
  {
    hide Inv;
    InitKeeps(options, pid);
  }

  // ---- Executor steps that use no response ----

  lemma AdvanceKeepsArgv(e: Exec, e': Exec, id: nat)
    requires Advance(e, e') && Inv(e) && 1 <= id <= |e.launches|
    ensures LaunchedArgv(e', id) == LaunchedArgv(e, id) && id <= |e'.launches|
  {
    assert e.launches[id - 1] < |e.ledger|;
    hide Core, LegalFate;
  }

  lemma AdvanceKeepsChannel(w: World, e': Exec)
    requires Channel(w) && Advance(w.exec, e') && Inv(w.exec)
    requires ArgvOk(e'.ledger)
    ensures Channel(w.(exec := e'))
  {
    var w' := w.(exec := e');
    forall id | 1 <= id <= |w.exec.launches|
      ensures LaunchedArgv(e', id) == LaunchedArgv(w.exec, id) && id <= |e'.launches| {
      AdvanceKeepsArgv(w.exec, e', id);
    }
    hide LaunchedArgv, Core;
    AdvanceKeepsPids(w, e');
    AdvanceKeepsOwn(w, e');
    assert RequestsOk(w') by { hide IsRequest, Truthful; }
    assert RecordOk(w') by { hide IsRequest, Truthful; }
  }

  lemma AdvanceKeepsPids(w: World, e': Exec)
    requires PidsOk(w) && Advance(w.exec, e')
    ensures PidsOk(w.(exec := e'))
  {
    hide HasPid, LedgerGrows, NoResponseUsed;
    forall i | 0 <= i < |e'.children| && e'.children[i].pid != -1
      ensures HasPid(w.record, e'.children[i].jobId, e'.children[i].pid) {
      assert PidSeen(w.exec.children, e'.children[i].jobId, e'.children[i].pid);
      var k :| 0 <= k < |w.exec.children| && w.exec.children[k].jobId == e'.children[i].jobId
               && w.exec.children[k].pid == e'.children[i].pid;
    }
  }

  lemma AdvanceKeepsOwn(w: World, e': Exec)
    requires OwnOk(w) && Advance(w.exec, e')
    ensures OwnOk(w.(exec := e'))
  {
    hide Reports, LedgerGrows, PidsKept;
  }

  lemma ArgvStays(e: Exec, e': Exec)
    requires ArgvOk(e.ledger) && Advance(e, e') && |e'.ledger| == |e.ledger|
    ensures ArgvOk(e'.ledger)
  {
    hide WellFormedArgv, LegalFate, PidsKept, NoResponseUsed;
  }

  /** Dropping what is in transit, with or without a fresh supervisor, harms nothing. */
  lemma ClearKeepsChannel(w: World, s: Supervisor)
    requires Channel(w) && s.table == []
    ensures Channel(w.(requests := [], waiting := [], responses := [], supervisor := s))
  {
    hide IsRequest, Truthful, HasPid, Reports, WellFormedArgv;
  }

  lemma WithExecKeeps(w: World, e': Exec)
    requires Channel(w) && Inv(w.exec) && Advance(w.exec, e') && |e'.ledger| == |w.exec.ledger|
    ensures Channel(WithExec(w, e'))
  {
    assert ArgvOk(w.exec.ledger);
    hide Inv, Channel, Advance;
    ArgvStays(w.exec, e');
    AdvanceKeepsChannel(w, e');
    ClearKeepsChannel(w.(exec := e'), NO_SUPERVISOR);
  }

  // ---- Launching over the socket ----

  /** The bytes put on the socket are the request of the job that has just started. */
  lemma SentIsRequest(w: World, p: Priority, i: nat, now: int)
    requires i < |Queue(w.exec, p)| && ArgvOk(w.exec.ledger)
    requires var job := Queue(w.exec, p)[i];
             job.ticket < |w.exec.ledger| && w.exec.ledger[job.ticket].job == job
    requires w.exec.nextJobId == |w.exec.launches| + 1 < U64_LIMIT
    requires Encodable(Queue(w.exec, p)[i].request.argv)
    ensures var e' := Start(w.exec, p, i, now); var id := w.exec.nextJobId;
            var argv := Queue(w.exec, p)[i].request.argv;
            && e'.launches == w.exec.launches + [Queue(w.exec, p)[i].ticket]
            && LaunchedArgv(e', id) == argv && IsRequest(LaunchBytes(id, argv), id, argv)
  {
    hide LaunchBytes, Encodable;
    var job := Queue(w.exec, p)[i];
    assert WellFormedArgv(w.exec.ledger[job.ticket].job.request.argv);
  }

  lemma AppendRequest(w: World, bytes: seq<byte>, id: nat)
    requires Channel(w) && |w.exec.launches| == id >= 1
    requires id !in w.record && IsRequest(bytes, id, LaunchedArgv(w.exec, id))
    requires forall i :: 0 <= i < |w.waiting| ==> w.waiting[i] < id
    ensures Channel(w.(requests := w.requests + [bytes], waiting := w.waiting + [id]))
  {
    hide IsRequest, Truthful, HasPid, Reports, WellFormedArgv, LaunchedArgv;
  }

  lemma SendKeepsChannel(w: World, p: Priority, i: nat, now: int)
    requires WorldInv(w) && i < |Queue(w.exec, p)| && w.exec.nextJobId < U64_LIMIT
    requires Encodable(Queue(w.exec, p)[i].request.argv)
    ensures Channel(w.(exec := Start(w.exec, p, i, now),
                       requests := w.requests + [LaunchBytes(w.exec.nextJobId, Queue(w.exec, p)[i].request.argv)],
                       waiting := w.waiting + [w.exec.nextJobId]))
  {
    var e, id, argv := w.exec, w.exec.nextJobId, Queue(w.exec, p)[i].request.argv;
    assert id == |e.launches| + 1;
    assert forall k :: 0 <= k < |w.waiting| ==> w.waiting[k] < id;
    assert id !in w.record;
    assert ArgvOk(e.ledger);
    QueuedJob(e, p, i);
    hide Channel, Core, ArgvOk, IsRequest, LaunchedArgv, Start, LaunchBytes, Encodable;
    SentIsRequest(w, p, i, now);
    StartAdvances(e, p, i, now);
    ArgvStays(e, Start(e, p, i, now));
    AdvanceKeepsChannel(w, Start(e, p, i, now));
    AppendRequest(w.(exec := Start(e, p, i, now)), LaunchBytes(id, argv), id);
  }

  lemma LaunchKeepsWorld(w: World, outcome: SendOutcome, now: int, gone: bool)
    requires WorldInv(w) && LaunchEnabled(w)
    ensures WorldInv(LaunchWorld(w, outcome, now, gone))
  {
    var c := Choose(w.exec);
    var argv := Queue(w.exec, c.priority)[c.index].request.argv;
    assert |Queue(w.exec, c.priority)| > c.index;
    hide Choose, Channel, Inv, Start, Encodable;
    LaunchKeeps(w.exec, outcome, now, gone);
    LaunchAdvances(w.exec, outcome, now, gone);
    FittingIsEncodable(argv);
    if Fits(argv) && outcome.Sent? {
      SendKeepsChannel(w, c.priority, c.index, now);
    } else {
      hide Launch;
      WithExecKeeps(w, Launch(w.exec, c.priority, c.index, outcome, now, gone));
    }
  }

  // ---- Receiving a response ----

  lemma SetPidKeepsChannel(w: World, i: nat, pid: int)
    requires Channel(w) && i < |w.exec.children|
    requires pid == -1 || HasPid(w.record, w.exec.children[i].jobId, pid)
    ensures Channel(w.(exec := SetPid(w.exec, i, pid)))
  {
    hide IsRequest, Truthful, HasPid, Reports, WellFormedArgv;
  }

  lemma ResultReports(w: World, i: nat, status: WaitStatus, execErrno: int, pid: int)
    requires Inv(w.exec) && RecordOk(w) && i < |w.exec.children|
    requires Truthful(w.record, Finished(w.exec.children[i].jobId, pid, status, execErrno))
    requires w.exec.children[i].pid == pid
    ensures Reports(w.record, w.exec.children[i].jobId, ResultOf(w.exec.children[i], status, execErrno))
  {
    var c := w.exec.children[i];
    RunningChild(w.exec, i);
    assert w.exec.launches[c.jobId - 1] == c.job.ticket;
    hide Inv;
  }

  lemma FinishKeepsOwn(w: World, i: nat, status: WaitStatus, execErrno: int)
    requires Inv(w.exec) && OwnOk(w) && i < |w.exec.children|
    requires Reports(w.record, w.exec.children[i].jobId, ResultOf(w.exec.children[i], status, execErrno))
    ensures OwnOk(w.(exec := Finish(w.exec, i, status, execErrno, OwnResponse)))
    ensures FinishGrows(w.exec, Finish(w.exec, i, status, execErrno, OwnResponse))
  {
    RunningChild(w.exec, i);
    hide Core, Reports, RemoveAt;
  }

  /** Finishing a job changes one fate and no job, launch or argument. */
  ghost predicate FinishGrows(e: Exec, e': Exec) {
    && LedgerGrows(e.ledger, e'.ledger) && |e'.ledger| == |e.ledger| && e'.launches == e.launches
    && e.posted <= e'.posted
  }

  lemma GrowsKeepsRest(w: World, e': Exec)
    requires Channel(w) && FinishGrows(w.exec, e') && PidsKept(w.exec.children, e'.children)
    requires OwnOk(w.(exec := e')) && Inv(w.exec)
    ensures Channel(w.(exec := e'))
  {
    GrowsKeepsArgv(w, e');
    FinishKeepsPids(w, e');
    hide LaunchedArgv, Inv, PidsKept, FinishGrows, ArgvOk, PidsOk, OwnOk;
    RequestsFrame(w, e');
    hide RequestsOk, RecordOk, Truthful;
  }

  lemma GrowsKeepsArgv(w: World, e': Exec)
    requires ArgvOk(w.exec.ledger) && FinishGrows(w.exec, e') && Inv(w.exec)
    ensures ArgvOk(e'.ledger) && e'.launches == w.exec.launches
    ensures forall id :: 1 <= id <= |w.exec.launches| ==> LaunchedArgv(e', id) == LaunchedArgv(w.exec, id)
  {
    assert LaunchesOk(w.exec);
    hide Inv, WellFormedArgv, LegalFate;
    forall id | 1 <= id <= |w.exec.launches| ensures LaunchedArgv(e', id) == LaunchedArgv(w.exec, id) {
      LaunchWasFiled(w.exec, id - 1);
    }
  }

  lemma LaunchWasFiled(e: Exec, k: nat)
    requires LaunchesOk(e) && k < |e.launches|
    ensures e.launches[k] < |e.ledger|
  {
  }

  lemma RequestsFrame(w: World, e': Exec)
    requires RequestsOk(w) && RecordOk(w) && e'.launches == w.exec.launches
    requires forall id :: 1 <= id <= |w.exec.launches| ==> LaunchedArgv(e', id) == LaunchedArgv(w.exec, id)
    ensures RequestsOk(w.(exec := e')) && RecordOk(w.(exec := e'))
  {
    hide LaunchedArgv, IsRequest;
  }

  lemma FinishKeepsPids(w: World, e': Exec)
    requires PidsOk(w) && PidsKept(w.exec.children, e'.children)
    ensures PidsOk(w.(exec := e'))
  {
    hide HasPid;
    forall i | 0 <= i < |e'.children| && e'.children[i].pid != -1
      ensures HasPid(w.record, e'.children[i].jobId, e'.children[i].pid) {
      var k :| 0 <= k < |w.exec.children| && w.exec.children[k].jobId == e'.children[i].jobId
               && w.exec.children[k].pid == e'.children[i].pid;
    }
  }

  lemma FinishKeepsChannel(w: World, i: nat, status: WaitStatus, execErrno: int, pid: int)
    requires WorldInv(w) && i < |w.exec.children| && w.exec.children[i].pid == pid
    requires Truthful(w.record, Finished(w.exec.children[i].jobId, pid, status, execErrno))
    ensures Channel(w.(exec := Finish(w.exec, i, status, execErrno, OwnResponse)))
  {
    var e' := Finish(w.exec, i, status, execErrno, OwnResponse);
    assert e'.children == RemoveAt(w.exec.children, i);
    FinishPids(w.exec.children, i);
    assert RecordOk(w) && OwnOk(w);
    hide Inv, Channel, Finish, PidsKept, Truthful, Reports, RemoveAt, RecordOk;
    ResultReports(w, i, status, execErrno, pid);
    FinishKeepsOwn(w, i, status, execErrno);
    GrowsKeepsRest(w, e');
  }

  /** A child whose pid is known has the pid that a truthful finishing response carries. */
  lemma PidAgrees(w: World, i: nat, r: Response)
    requires PidsOk(w) && RecordOk(w) && i < |w.exec.children| && Truthful(w.record, r) && r.Finished?
    requires w.exec.children[i].jobId == r.jobId
    ensures w.exec.children[i].pid < 0 || w.exec.children[i].pid == r.pid
    ensures r.pid == -1 || HasPid(w.record, r.jobId, r.pid)
  {
  }

  lemma SetPidKeeps(w: World, i: nat, pid: int)
    requires WorldInv(w) && i < |w.exec.children|
    requires pid == -1 || HasPid(w.record, w.exec.children[i].jobId, pid)
    ensures WorldInv(w.(exec := SetPid(w.exec, i, pid)))
  {
    hide Channel, Core;
    SetPidKeepsChannel(w, i, pid);
    var c := w.exec.children[i].(pid := pid);
    assert SetPid(w.exec, i, pid) == w.exec.(children := w.exec.children[i := c], signals := w.exec.signals);
    ChildUpdateKeeps(w.exec, i, c, w.exec.signals);
  }

  lemma ReceiveKeepsChannel(w: World, r: Response)
    requires WorldInv(w) && Truthful(w.record, r)
    ensures Channel(w.(exec := Receive(w.exec, r)))
  {
    var e := w.exec;
    var i := IndexOf(e.children, r.jobId);
    hide IndexOf, Inv, Channel, HasPid, SetPid, Finish;
    if i < |e.children| {
      if r.Launched? {
        LaunchedHasPid(w.record, r);
        SetPidKeeps(w, i, r.pid);
      } else {
        FinishedKeepsChannel(w, i, r);
      }
    }
  }

  lemma FinishedKeepsChannel(w: World, i: nat, r: Response)
    requires WorldInv(w) && Truthful(w.record, r) && r.Finished?
    requires i < |w.exec.children| && w.exec.children[i].jobId == r.jobId
    ensures var e' := if w.exec.children[i].pid < 0 then SetPid(w.exec, i, r.pid) else w.exec;
            && i < |e'.children|
            && Channel(w.(exec := Finish(e', i, r.status, r.execErrno, OwnResponse)))
  {
    var e := w.exec;
    assert PidsOk(w) && RecordOk(w);
    PidAgrees(w, i, r);
    SetPidAt(e, i, r.pid);
    hide Inv, Channel, HasPid, PidsOk, RecordOk, Truthful, SetPid, Finish;
    if e.children[i].pid < 0 {
      SetPidKeeps(w, i, r.pid);
      FinishKeepsChannel(w.(exec := SetPid(e, i, r.pid)), i, r.status, r.execErrno, r.pid);
    } else {
      FinishKeepsChannel(w, i, r.status, r.execErrno, r.pid);
    }
  }

  lemma SetPidAt(e: Exec, i: nat, pid: int)
    requires i < |e.children|
    ensures |SetPid(e, i, pid).children| == |e.children|
    ensures SetPid(e, i, pid).children[i].pid == pid && SetPid(e, i, pid).children[i].jobId == e.children[i].jobId
  {
  }

  lemma LaunchedHasPid(record: map<nat, Execution>, r: Response)
    requires Truthful(record, r)
    ensures r.Launched? ==> HasPid(record, r.jobId, r.pid)
  {
  }

  lemma ReceiveStepKeeps(w: World)
    requires WorldInv(w) && w.responses != []
    ensures WorldInv(w.(exec := Receive(w.exec, w.responses[0]), responses := w.responses[1..]))
  {
    ReceiveKeeps(w.exec, w.responses[0]);
    assert Truthful(w.record, w.responses[0]);
    ReceiveKeepsChannel(w, w.responses[0]);
    hide Inv, Receive;
    DropResponse(w.(exec := Receive(w.exec, w.responses[0])));
  }

  lemma DropResponse(w: World)
    requires Channel(w) && w.responses != []
    ensures Channel(w.(responses := w.responses[1..]))
  {
    hide IsRequest, Truthful, HasPid, Reports, WellFormedArgv, LaunchedArgv;
  }

  // ---- The supervisor acts ----

  /** The record of one job id changes; nothing else in the channel speaks of that id yet. */
  lemma RecordKeepsChannel(w: World, id: nat, x: Execution)
    requires Channel(w) && 1 <= id <= |w.exec.launches|
    requires forall i :: 0 <= i < |w.waiting| ==> w.waiting[i] != id
    requires id !in w.record || (w.record[id].Started? && x.Ended? && x.pid == w.record[id].pid)
    requires forall i :: 0 <= i < |w.supervisor.table| ==> w.supervisor.table[i].jobId != id
    requires x.Started? || x.Ended? ==> x.argv == LaunchedArgv(w.exec, id) && x.pid > 0
    ensures Channel(w.(record := w.record[id := x]))
  {
    var w' := w.(record := w.record[id := x]);
    hide LaunchedArgv, IsRequest, WellFormedArgv;
    assert RequestsOk(w') && RecordOk(w') && TableOk(w');
    forall i | 0 <= i < |w.responses| ensures Truthful(w'.record, w.responses[i]) {
      assert Truthful(w.record, w.responses[i]);
    }
    forall i | 0 <= i < |w.exec.children| && w.exec.children[i].pid != -1
      ensures HasPid(w'.record, w.exec.children[i].jobId, w.exec.children[i].pid) {
      assert HasPid(w.record, w.exec.children[i].jobId, w.exec.children[i].pid);
    }
    RecordKeepsOwn(w, id, x);
    hide RequestsOk, RecordOk, TableOk, OwnOk;
  }

  lemma RecordKeepsOwn(w: World, id: nat, x: Execution)
    requires OwnOk(w) && (id !in w.record || w.record[id].Started?)
    ensures OwnOk(w.(record := w.record[id := x]))
  {
    forall t | 0 <= t < |w.exec.ledger| && w.exec.ledger[t].fate.Done? && w.exec.ledger[t].fate.cause.OwnResponse?
      ensures Reports(w.record[id := x], w.exec.ledger[t].fate.finishedId, w.exec.ledger[t].fate.result) {
      assert Reports(w.record, w.exec.ledger[t].fate.finishedId, w.exec.ledger[t].fate.result);
    }
  }

  lemma RespondKeeps(w: World, r: Response, heard: bool)
    requires Channel(w) && Truthful(w.record, r)
    ensures Channel(Respond(w, r, heard))
  {
    hide IsRequest, Truthful, HasPid, Reports, WellFormedArgv, LaunchedArgv;
  }

  lemma DropRequest(w: World)
    requires Channel(w) && w.requests != [] && w.waiting != []
    ensures var w' := w.(requests := w.requests[1..], waiting := w.waiting[1..]);
            Channel(w') && w.waiting[0] !in w.record && 1 <= w.waiting[0] <= |w.exec.launches|
            && forall i :: 0 <= i < |w'.waiting| ==> w'.waiting[i] != w.waiting[0]
    ensures forall i :: 0 <= i < |w.supervisor.table| ==> w.supervisor.table[i].jobId != w.waiting[0]
    ensures IsRequest(w.requests[0], w.waiting[0], LaunchedArgv(w.exec, w.waiting[0]))
  {
    hide IsRequest, Truthful, HasPid, Reports, WellFormedArgv, LaunchedArgv;
  }

  lemma RequestDecodes(bytes: seq<byte>, id: nat, argv: seq<Argument>)
    requires IsRequest(bytes, id, argv)
    ensures Decode(bytes) == LaunchRequest(id, argv)
  {
    hide Decode, LaunchBytes, Encodable;
    CodecInverse(bytes, id, argv);
  }

  lemma AddProcess(w: World, id: nat, pid: int)
    requires Channel(w) && id in w.record && w.record[id].Started? && w.record[id].pid == pid
    requires forall i :: 0 <= i < |w.supervisor.table| ==> w.supervisor.table[i].jobId != id
    ensures Channel(w.(supervisor := w.supervisor.(table := w.supervisor.table + [Process(id, pid)])))
  {
    hide IsRequest, Truthful, Reports, WellFormedArgv, LaunchedArgv, HasPid;
  }

  lemma StartsAreNotRead(w: World, w': World)
    requires Channel(w) && w' == w.(starts := w'.starts)
    ensures Channel(w')
  {
    hide IsRequest, Truthful, Reports, WellFormedArgv, LaunchedArgv, HasPid;
  }

  lemma ReadKeepsChannel(w: World, fork: Fork, heard: bool)
    requires Channel(w) && w.supervisor.alive && w.requests != [] && w.waiting != []
    ensures Channel(ReadRequest(w, fork, heard))
  {
    var id := w.waiting[0];
    var argv := LaunchedArgv(w.exec, id);
    var w' := w.(requests := w.requests[1..], waiting := w.waiting[1..]);
    DropRequest(w);
    RequestDecodes(w.requests[0], id, argv);
    hide Channel, Decode, LaunchedArgv, IsRequest;
    if !w.supervisor.stopping {
      if fork.ForkFailed? || fork.pid <= 0 {
        var error := if fork.ForkFailed? then fork.error else EINVAL;
        RecordKeepsChannel(w', id, Refused(error));
        RespondKeeps(w'.(record := w.record[id := Refused(error)]), Finished(id, -1, Exited(127), error), heard);
      } else {
        var w1 := w'.(record := w.record[id := Started(argv, fork.pid)], starts := w.starts + [id]);
        RecordKeepsChannel(w', id, Started(argv, fork.pid));
        StartsAreNotRead(w'.(record := w.record[id := Started(argv, fork.pid)]), w1);
        AddProcess(w1, id, fork.pid);
        var w2 := w1.(supervisor := w1.supervisor.(table := w1.supervisor.table + [Process(id, fork.pid)]));
        RespondKeeps(w2, Launched(id, fork.pid), heard);
      }
    }
  }

  lemma RemoveProcess(w: World, i: nat)
    requires Channel(w) && i < |w.supervisor.table|
    ensures var w' := w.(supervisor := w.supervisor.(table := RemoveAt(w.supervisor.table, i)));
            Channel(w')
            && forall k :: 0 <= k < |w'.supervisor.table| ==>
                 w'.supervisor.table[k].jobId != w.supervisor.table[i].jobId
  {
    var table, r := w.supervisor.table, RemoveAt(w.supervisor.table, i);
    assert forall k :: 0 <= k < |r| ==> r[k] == table[if k < i then k else k + 1];
    hide RemoveAt, IsRequest, Truthful, Reports, WellFormedArgv, LaunchedArgv, HasPid;
  }

  lemma EndKeepsChannel(w: World, i: nat, status: WaitStatus, execErrno: int, heard: bool)
    requires Channel(w) && w.supervisor.alive && i < |w.supervisor.table|
    ensures Channel(EndChild(w, i, status, execErrno, heard))
  {
    var p := w.supervisor.table[i];
    assert p.jobId in w.record && w.record[p.jobId].Started? && w.record[p.jobId].pid == p.pid;
    var argv := w.record[p.jobId].argv;
    assert 1 <= p.jobId <= |w.exec.launches| && argv == LaunchedArgv(w.exec, p.jobId) && p.pid > 0;
    assert forall k :: 0 <= k < |w.waiting| ==> w.waiting[k] != p.jobId;
    RemoveProcess(w, i);
    hide Channel, LaunchedArgv, RemoveAt;
    var w1 := w.(supervisor := w.supervisor.(table := RemoveAt(w.supervisor.table, i)));
    RecordKeepsChannel(w1, p.jobId, Ended(argv, p.pid, status, execErrno));
    RespondKeeps(w1.(record := w1.record[p.jobId := Ended(argv, p.pid, status, execErrno)]),
                 Finished(p.jobId, p.pid, status, execErrno), heard);
  }
}
