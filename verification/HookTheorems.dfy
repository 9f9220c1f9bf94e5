/** What holds of the hook executor in every run of the protocol. */
module HookTheorems {
  import HookCodec
  import opened HookState
  import opened HookLedger
  import opened HookInvariants
  import opened HookProgress
  import opened HookProtocol
  import opened HookChannel

  // ---- Every step keeps the invariant and extends the history ----

  lemma StepKeeps(w: World, step: Step)
    requires WorldInv(w)
    ensures WorldInv(Next(w, step))
  {
    match step
    case SubmitStep(s) => SubmitStepKeeps(w, s);
    case StopStep(now) => StopStepKeeps(w, now);
    case RestartStep(spawn, now) => RestartStepKeeps(w, spawn, now);
    case LaunchStep(outcome, now, gone) =>
      hide WorldInv, LaunchEnabled, LaunchWorld;
      if LaunchEnabled(w) {
        LaunchKeepsWorld(w, outcome, now, gone);
      }
    case ReceiveStep =>
      hide Channel, Inv, Receive;
      if w.exec.connected && w.responses != [] {
        ReceiveStepKeeps(w);
      }
    case BreakStep(error, now, gone) => BreakStepKeeps(w, error, now, gone);
    case ReapStep(gone) => ReapStepKeeps(w, gone);
    case ExpireStep(now, gone) => ExpireStepKeeps(w, now, gone);
    case DeliverStep => DeliverStepKeeps(w);
    case ExitStep => ExitStepKeeps(w);
    case SupervisorReads(fork, heard) => ReadStepKeeps(w, fork, heard);
    case ChildEnds(i, status, execErrno, heard) => EndStepKeeps(w, i, status, execErrno, heard);
    case SupervisorGivesUp => SupervisorStepKeeps(w);
    case SupervisorDies => SupervisorStepKeeps(w);
  }

  lemma SubmitStepKeeps(w: World, s: Submission)
    requires WorldInv(w)
    ensures WorldInv(Next(w, SubmitStep(s)))
  {
    hide Submit, HookState.Stop, MayRestart, Restart, LaunchEnabled, LaunchWorld, Receive, FailSupervisor;
    hide ReapSupervisor, ExpireFrom, Deliver, ReadRequest, EndChild, WithExec;
    if WellFormedArgv(s.argv) {
      assert ArgvOk(w.exec.ledger);
      hide Inv, Channel, Submit, WellFormedArgv;
      SubmitKeeps(w.exec, s);
      SubmitAdvances(w.exec, s);
      ArgvGrows(w.exec, Submit(w.exec, s), s);
      AdvanceKeepsChannel(w, Submit(w.exec, s));
    }
  }

  lemma ArgvGrows(e: Exec, e': Exec, s: Submission)
    requires ArgvOk(e.ledger) && LedgerGrows(e.ledger, e'.ledger) && |e'.ledger| == |e.ledger| + 1
    requires e'.ledger[|e.ledger|].job.request == s && WellFormedArgv(s.argv)
    ensures ArgvOk(e'.ledger)
  {
    hide WellFormedArgv, LegalFate;
  }

  lemma StopStepKeeps(w: World, now: int)
    requires WorldInv(w)
    ensures WorldInv(Next(w, StopStep(now)))
  {
    hide Submit, HookState.Stop, MayRestart, Restart, LaunchEnabled, LaunchWorld, Receive, FailSupervisor;
    hide ReapSupervisor, ExpireFrom, Deliver, ReadRequest, EndChild, WithExec;
    assert ArgvOk(w.exec.ledger);
    hide Inv, Channel, HookState.Stop;
    StopKeeps(w.exec, now);
    StopAdvances(w.exec, now);
    ArgvStays(w.exec, HookState.Stop(w.exec, now));
    AdvanceKeepsChannel(w, HookState.Stop(w.exec, now));
  }

  lemma RestartStepKeeps(w: World, spawn: Spawn, now: int)
    requires WorldInv(w)
    ensures WorldInv(Next(w, RestartStep(spawn, now)))
  {
    hide Submit, HookState.Stop, LaunchEnabled, LaunchWorld, Receive, FailSupervisor, ReapSupervisor;
    hide ExpireFrom, Deliver, ReadRequest, EndChild, WithExec;
    if !w.exited && MayRestart(w.exec, now) && (spawn.Spawned? ==> spawn.pid > 0) {
      assert ArgvOk(w.exec.ledger);
      var e' := Restart(w.exec, spawn, now);
      hide Inv, Channel;
      RestartKeeps(w.exec, spawn, now);
      Stay(w.exec, e');
      hide Restart;
      ArgvStays(w.exec, e');
      AdvanceKeepsChannel(w, e');
      ClearKeepsChannel(w.(exec := e'), NEW_SUPERVISOR);
    }
  }

  lemma BreakStepKeeps(w: World, error: int, now: int, gone: bool)
    requires WorldInv(w)
    ensures WorldInv(Next(w, BreakStep(error, now, gone)))
  {
    hide Submit, HookState.Stop, MayRestart, Restart, LaunchEnabled, LaunchWorld, Receive, FailSupervisor;
    hide ReapSupervisor, ExpireFrom, Deliver, ReadRequest, EndChild;
    hide Core, Channel, FailSupervisor;
    if w.exec.connected {
      FailKeeps(w.exec, error, now, gone);
      FailAdvances(w.exec, error, now, gone);
      WithExecKeeps(w, FailSupervisor(w.exec, error, now, gone));
    }
  }

  /** A section that leaves the history and the children alone leaves the channel alone. */
  lemma QuietKeepsChannel(w: World, e': Exec)
    requires WorldInv(w)
    requires e'.ledger == w.exec.ledger && e'.launches == w.exec.launches
    requires e'.posted == w.exec.posted && e'.children == w.exec.children
    ensures Channel(w.(exec := e'))
  {
    assert ArgvOk(w.exec.ledger);
    hide Channel, Inv, ArgvOk, Advance;
    Stay(w.exec, e');
    AdvanceKeepsChannel(w, e');
  }

  lemma ReapStepKeeps(w: World, gone: bool)
    requires WorldInv(w)
    ensures WorldInv(Next(w, ReapStep(gone)))
  {
    hide Submit, HookState.Stop, Restart, LaunchEnabled, LaunchWorld, Receive, FailSupervisor, ExpireFrom;
    hide Deliver;
    hide ReadRequest, EndChild, WithExec, Channel, Core;
    FlagsKeep(w.exec, ReapSupervisor(w.exec, gone));
    QuietKeepsChannel(w, ReapSupervisor(w.exec, gone));
  }

  lemma ExpireStepKeeps(w: World, now: int, gone: bool)
    requires WorldInv(w)
    ensures WorldInv(Next(w, ExpireStep(now, gone)))
  {
    hide Submit, HookState.Stop, MayRestart, Restart, LaunchEnabled, LaunchWorld, Receive, FailSupervisor;
    hide ReapSupervisor, ExpireFrom, Deliver, ReadRequest, EndChild;
    hide Inv, Channel, ExpireFrom;
    ExpireKeeps(w.exec, 0, now, gone);
    ExpireAdvances(w.exec, 0, now, gone);
    WithExecKeeps(w, ExpireFrom(w.exec, 0, now, gone));
  }

  lemma DeliverStepKeeps(w: World)
    requires WorldInv(w)
    ensures WorldInv(Next(w, DeliverStep))
  {
    hide Submit, HookState.Stop, Restart, LaunchEnabled, LaunchWorld, Receive, FailSupervisor, ExpireFrom;
    hide ReapSupervisor, ReadRequest, EndChild, WithExec, Channel, Inv;
    DeliverKeeps(w.exec);
    QuietKeepsChannel(w, Deliver(w.exec));
  }

  lemma ExitStepKeeps(w: World)
    requires WorldInv(w)
    ensures WorldInv(Next(w, ExitStep))
  {
    hide Submit, HookState.Stop, MayRestart, Restart, LaunchEnabled, LaunchWorld, Receive, FailSupervisor;
    hide ReapSupervisor, ExpireFrom, Deliver, ReadRequest, EndChild;
    var e' := w.exec.(connected := false, supervisorPid := -1);
    hide Channel, Core;
    FlagsKeep(w.exec, e');
    Stay(w.exec, e');
    var w1 := w.(exited := true);
    assert Channel(w1) by { ExitedFlag(w); }
    WithExecKeeps(w1, e');
  }

  lemma ExitedFlag(w: World)
    requires Channel(w)
    ensures Channel(w.(exited := true))
  {
    hide IsRequest, Truthful, HasPid, Reports, WellFormedArgv, LaunchedArgv;
  }

  lemma ReadStepKeeps(w: World, fork: Fork, heard: bool)
    requires WorldInv(w)
    ensures WorldInv(Next(w, SupervisorReads(fork, heard)))
  {
    hide Submit, HookState.Stop, MayRestart, Restart, LaunchEnabled, LaunchWorld, Receive, FailSupervisor;
    hide ReapSupervisor, ExpireFrom, Deliver, ReadRequest, EndChild, WithExec;
    if w.supervisor.alive && w.requests != [] && w.waiting != [] {
      ReadKeepsExec(w, fork, heard);
      hide Channel, Inv, ReadRequest;
      ReadKeepsChannel(w, fork, heard);
    }
  }

  lemma ReadKeepsExec(w: World, fork: Fork, heard: bool)
    requires w.supervisor.alive && w.requests != [] && w.waiting != []
    ensures ReadRequest(w, fork, heard).exec == w.exec && ReadRequest(w, fork, heard).exited == w.exited
  {
    hide HookCodec.Decode;
  }

  lemma EndStepKeeps(w: World, i: nat, status: WaitStatus, execErrno: int, heard: bool)
    requires WorldInv(w)
    ensures WorldInv(Next(w, ChildEnds(i, status, execErrno, heard)))
  {
    hide Submit, HookState.Stop, MayRestart, Restart, LaunchEnabled, LaunchWorld, Receive, FailSupervisor;
    hide ReapSupervisor, ExpireFrom, Deliver, ReadRequest, WithExec;
    hide Channel, Inv;
    if w.supervisor.alive && i < |w.supervisor.table| {
      EndKeepsChannel(w, i, status, execErrno, heard);
    }
  }

  lemma SupervisorStepKeeps(w: World)
    requires WorldInv(w)
    ensures WorldInv(Next(w, SupervisorGivesUp)) && WorldInv(Next(w, SupervisorDies))
  {
    hide Submit, HookState.Stop, MayRestart, Restart, LaunchEnabled, LaunchWorld, Receive, FailSupervisor;
    hide ReapSupervisor, ExpireFrom, Deliver, ReadRequest, EndChild, WithExec;
    hide Inv, IsRequest, Truthful, HasPid, Reports, WellFormedArgv, LaunchedArgv;
  }

  lemma {:induction false} RunKeeps(w: World, steps: seq<Step>)
    requires WorldInv(w)
    ensures WorldInv(Run(w, steps))
    decreases |steps|
  {
    hide WorldInv, Next;
    if steps != [] {
      StepKeeps(w, steps[0]);
      RunKeeps(Next(w, steps[0]), steps[1..]);
    }
  }

  /** Every world some run of the protocol can reach. */
  ghost predicate Reachable(w: World) {
    exists options, pid, steps :: ValidOptions(options) && w == Run(InitWorld(options, pid), steps)
  }

  lemma ReachableKeeps(w: World)
    requires Reachable(w)
    ensures WorldInv(w)
  {
    hide WorldInv, Run, InitWorld;
    var options, pid, steps :| ValidOptions(options) && w == Run(InitWorld(options, pid), steps);
    InitWorldOk(options, pid);
    RunKeeps(InitWorld(options, pid), steps);
  }

  lemma InvOf(w: World)
    requires WorldInv(w)
    ensures Inv(w.exec)
  {
    hide Inv;
  }

  // ---- The history only grows ----

  ghost predicate HistoryGrows(e: Exec, e': Exec) {
    LedgerGrows(e.ledger, e'.ledger) && e.launches <= e'.launches && e.posted <= e'.posted
  }

  lemma AdvanceGrows(e: Exec, e': Exec)
    requires Advance(e, e')
    ensures HistoryGrows(e, e')
  {
  }

  lemma NoChange(e: Exec, e': Exec)
    requires e'.ledger == e.ledger && e'.launches == e.launches && e'.posted == e.posted
    ensures HistoryGrows(e, e')
  {
  }

  lemma FinishHistory(e: Exec, i: nat, status: WaitStatus, execErrno: int)
    requires i < |e.children| && e.children[i].job.ticket < |e.ledger|
    requires e.ledger[e.children[i].job.ticket].fate == Running(e.children[i].jobId)
    ensures HistoryGrows(e, Finish(e, i, status, execErrno, OwnResponse))
  {
    hide RemoveAt, ResultOf, Unsuccessful;
  }

  lemma ReceiveGrows(e: Exec, r: Response)
    requires Inv(e)
    ensures HistoryGrows(e, Receive(e, r))
  {
    var i := IndexOf(e.children, r.jobId);
    assert ChildrenOk(e);
    hide IndexOf, Core, ChildrenOk, Finish;
    NoChange(e, e);
    if i < |e.children| {
      RunningChild(e, i);
      if r.Launched? {
        NoChange(e, SetPid(e, i, r.pid));
      } else {
        var e1 := if e.children[i].pid < 0 then SetPid(e, i, r.pid) else e;
        assert e1.children[i].job == e.children[i].job && e1.children[i].jobId == e.children[i].jobId;
        FinishHistory(e1, i, r.status, r.execErrno);
      }
    }
  }

  lemma StepGrows(w: World, step: Step)
    requires WorldInv(w)
    ensures HistoryGrows(w.exec, Next(w, step).exec)
  {
    match step
    case SubmitStep(s) => SubmitGrows(w, s);
    case StopStep(now) => StopGrows(w, now);
    case LaunchStep(outcome, now, gone) => LaunchGrows(w, outcome, now, gone);
    case ReceiveStep => ReceiveStepGrows(w);
    case BreakStep(error, now, gone) => FailureGrows(w, error, now, gone);
    case ExpireStep(now, gone) => ExpireGrows(w, now, gone);
    case _ => QuietStepGrows(w, step);
  }

  lemma SubmitGrows(w: World, s: Submission)
    requires WorldInv(w)
    ensures HistoryGrows(w.exec, Next(w, SubmitStep(s)).exec)
  {
    hide Channel, Inv, HistoryGrows, Advance, WellFormedArgv;
    hide Submit, HookState.Stop, MayRestart, Restart, LaunchEnabled, LaunchWorld, Receive, FailSupervisor;
    hide ReapSupervisor, ExpireFrom, Deliver, ReadRequest, EndChild, WithExec;
    SubmitAdvances(w.exec, s);
    AdvanceGrows(w.exec, Submit(w.exec, s));
    NoChange(w.exec, w.exec);
  }

  lemma StopGrows(w: World, now: int)
    requires WorldInv(w)
    ensures HistoryGrows(w.exec, Next(w, StopStep(now)).exec)
  {
    hide Channel, Inv, HistoryGrows, Advance;
    hide Submit, HookState.Stop, MayRestart, Restart, LaunchEnabled, LaunchWorld, Receive, FailSupervisor;
    hide ReapSupervisor, ExpireFrom, Deliver, ReadRequest, EndChild, WithExec;
    StopAdvances(w.exec, now);
    AdvanceGrows(w.exec, HookState.Stop(w.exec, now));
  }

  lemma ReceiveStepGrows(w: World)
    requires WorldInv(w)
    ensures HistoryGrows(w.exec, Next(w, ReceiveStep).exec)
  {
    hide Channel, Inv, HistoryGrows;
    hide Submit, HookState.Stop, MayRestart, Restart, LaunchEnabled, LaunchWorld, Receive, FailSupervisor;
    hide ReapSupervisor, ExpireFrom, Deliver, ReadRequest, EndChild, WithExec;
    NoChange(w.exec, w.exec);
    if w.exec.connected && w.responses != [] {
      ReceiveGrows(w.exec, w.responses[0]);
    }
  }

  lemma FailureGrows(w: World, error: int, now: int, gone: bool)
    requires WorldInv(w)
    ensures HistoryGrows(w.exec, Next(w, BreakStep(error, now, gone)).exec)
  {
    hide Channel, Core, HistoryGrows, Advance;
    hide Submit, HookState.Stop, MayRestart, Restart, LaunchEnabled, LaunchWorld, Receive, FailSupervisor;
    hide ReapSupervisor, ExpireFrom, Deliver, ReadRequest, EndChild;
    FailAdvances(w.exec, error, now, gone);
    AdvanceGrows(w.exec, FailSupervisor(w.exec, error, now, gone));
    NoChange(w.exec, w.exec);
  }

  lemma ExpireGrows(w: World, now: int, gone: bool)
    requires WorldInv(w)
    ensures HistoryGrows(w.exec, Next(w, ExpireStep(now, gone)).exec)
  {
    hide Channel, Inv, HistoryGrows, Advance;
    hide Submit, HookState.Stop, MayRestart, Restart, LaunchEnabled, LaunchWorld, Receive, FailSupervisor;
    hide ReapSupervisor, ExpireFrom, Deliver, ReadRequest, EndChild;
    ExpireAdvances(w.exec, 0, now, gone);
    AdvanceGrows(w.exec, ExpireFrom(w.exec, 0, now, gone));
    NoChange(w.exec, w.exec);
  }

  /** The remaining steps touch neither the ledger nor the launches nor the callbacks. */
  lemma QuietStepGrows(w: World, step: Step)
    requires WorldInv(w)
    requires step.RestartStep? || step.ReapStep? || step.DeliverStep? || step.ExitStep? || step.SupervisorReads?
             || step.ChildEnds? || step.SupervisorGivesUp? || step.SupervisorDies?
    ensures HistoryGrows(w.exec, Next(w, step).exec)
  {
    hide Channel, Inv, HistoryGrows;
    hide Submit, HookState.Stop, LaunchEnabled, LaunchWorld, Receive, FailSupervisor, ExpireFrom, ReadRequest;
    if step.SupervisorReads? && w.supervisor.alive && w.requests != [] && w.waiting != [] {
      ReadKeepsExec(w, step.fork, step.heard);
    }
    NoChange(w.exec, Next(w, step).exec);
  }

  lemma LaunchGrows(w: World, outcome: SendOutcome, now: int, gone: bool)
    requires WorldInv(w)
    ensures HistoryGrows(w.exec, Next(w, LaunchStep(outcome, now, gone)).exec)
  {
    hide Channel, Inv, HistoryGrows, Advance, Choose, Launch;
    hide Submit, HookState.Stop, MayRestart, Restart, Receive, FailSupervisor, ReapSupervisor, ExpireFrom;
    hide Deliver, ReadRequest, EndChild;
    NoChange(w.exec, w.exec);
    if LaunchEnabled(w) {
      var c := Choose(w.exec);
      LaunchAdvances(w.exec, outcome, now, gone);
      AdvanceGrows(w.exec, Launch(w.exec, c.priority, c.index, outcome, now, gone));
    }
  }

  lemma {:induction false} RunGrows(w: World, steps: seq<Step>)
    requires WorldInv(w)
    ensures HistoryGrows(w.exec, Run(w, steps).exec)
    decreases |steps|
  {
    hide WorldInv, Next;
    if steps != [] {
      var w' := Next(w, steps[0]);
      StepKeeps(w, steps[0]);
      StepGrows(w, steps[0]);
      RunGrows(w', steps[1..]);
      GrowsTransitive(w.exec.ledger, w'.exec.ledger, Run(w', steps[1..]).exec.ledger);
    } else {
      NoChange(w.exec, w.exec);
    }
  }

  /** Once a ticket has met a final fate, no later step of any run changes it. */
  lemma FinalFateStays(w: World, steps: seq<Step>, t: nat)
    requires Reachable(w) && t < |w.exec.ledger| && Final(w.exec.ledger[t].fate)
    ensures var l := Run(w, steps).exec.ledger; t < |l| && l[t] == w.exec.ledger[t]
  {
    hide Reachable, Run, WorldInv;
    ReachableKeeps(w);
    RunGrows(w, steps);
  }

  // ---- What the supervisors did is done once ----

  /** What was refused or has ended stays so; what was started can only end, as the same process. */
  ghost predicate RecordGrows(r: map<nat, Execution>, r': map<nat, Execution>) {
    forall id :: id in r ==> id in r' && Follows(r[id], r'[id])
  }

  predicate Follows(x: Execution, x': Execution) {
    x' == x || (x.Started? && x'.Ended? && x'.argv == x.argv && x'.pid == x.pid)
  }

  /** Acting on a launch request changes the record and the starts for its own job id only. */
  lemma ReadEffect(w: World, fork: Fork, heard: bool)
    requires Channel(w) && w.supervisor.alive && w.requests != [] && w.waiting != []
    ensures w.waiting[0] !in w.record
    ensures ReadChanged(w, ReadRequest(w, fork, heard), w.waiting[0])
  {
    var id := w.waiting[0];
    DropRequest(w);
    RequestDecodes(w.requests[0], id, LaunchedArgv(w.exec, id));
    hide Channel, HookCodec.Decode, LaunchedArgv, IsRequest;
  }

  predicate ReadChanged(w: World, w': World, id: nat) {
    if w'.starts == w.starts then
      w'.record == w.record || (id in w'.record && w'.record[id].Refused? && w'.record == w.record[id := w'.record[id]])
    else
      && w'.starts == w.starts + [id]
      && id in w'.record && w'.record[id].Started? && w'.record == w.record[id := w'.record[id]]
  }

  lemma ReadGrowsRecord(w: World, fork: Fork, heard: bool)
    requires Channel(w) && w.supervisor.alive && w.requests != [] && w.waiting != []
    ensures RecordGrows(w.record, ReadRequest(w, fork, heard).record)
  {
    ReadEffect(w, fork, heard);
    hide Channel, ReadRequest;
  }

  lemma EndGrowsRecord(w: World, i: nat, status: WaitStatus, execErrno: int, heard: bool)
    requires Channel(w) && w.supervisor.alive && i < |w.supervisor.table|
    ensures RecordGrows(w.record, EndChild(w, i, status, execErrno, heard).record)
  {
    assert TableOk(w);
    hide Channel, RemoveAt;
  }

  lemma StepGrowsRecord(w: World, step: Step)
    requires WorldInv(w)
    ensures RecordGrows(w.record, Next(w, step).record)
  {
    hide Channel, Inv, WellFormedArgv, ReadRequest, EndChild;
    hide Submit, HookState.Stop, MayRestart, Restart, Launch, Receive, FailSupervisor, ReapSupervisor;
    hide ExpireFrom, Deliver;
    match step
    case SupervisorReads(fork, heard) =>
      if w.supervisor.alive && w.requests != [] && w.waiting != [] {
        ReadGrowsRecord(w, fork, heard);
      }
    case ChildEnds(i, status, execErrno, heard) =>
      if w.supervisor.alive && i < |w.supervisor.table| {
        EndGrowsRecord(w, i, status, execErrno, heard);
      }
    case _ => OthersRecordNothing(w, step);
  }

  /** What the record says of a job id only moves forward. */
  lemma {:induction false} RecordMovesForward(w: World, steps: seq<Step>)
    requires WorldInv(w)
    ensures RecordGrows(w.record, Run(w, steps).record)
    decreases |steps|
  {
    hide WorldInv, Next;
    if steps != [] {
      StepKeeps(w, steps[0]);
      StepGrowsRecord(w, steps[0]);
      RecordMovesForward(Next(w, steps[0]), steps[1..]);
    }
  }

  // ---- Nothing runs twice ----

  ghost predicate WasStarted(record: map<nat, Execution>, id: nat) {
    id in record && (record[id].Started? || record[id].Ended?)
  }

  /** Every job id was forked at most once, and the record knows exactly those that were. */
  ghost predicate StartsOk(w: World) {
    && (forall i, k :: 0 <= i < k < |w.starts| ==> w.starts[i] != w.starts[k])
    && (forall id: nat :: id in w.starts <==> WasStarted(w.record, id))
  }

  lemma ReadKeepsStarts(w: World, fork: Fork, heard: bool)
    requires Channel(w) && StartsOk(w) && w.supervisor.alive && w.requests != [] && w.waiting != []
    ensures StartsOk(ReadRequest(w, fork, heard)) && w.starts <= ReadRequest(w, fork, heard).starts
  {
    ReadEffect(w, fork, heard);
    hide Channel, ReadRequest;
    assert w.waiting[0] !in w.starts;
  }

  lemma EndKeepsStarts(w: World, i: nat, status: WaitStatus, execErrno: int, heard: bool)
    requires Channel(w) && StartsOk(w) && w.supervisor.alive && i < |w.supervisor.table|
    ensures StartsOk(EndChild(w, i, status, execErrno, heard))
    ensures EndChild(w, i, status, execErrno, heard).starts == w.starts
  {
    assert TableOk(w);
    assert WasStarted(w.record, w.supervisor.table[i].jobId);
    hide Channel, RemoveAt;
  }

  lemma StepKeepsStarts(w: World, step: Step)
    requires WorldInv(w) && StartsOk(w)
    ensures StartsOk(Next(w, step)) && w.starts <= Next(w, step).starts
  {
    hide Channel, Inv, WellFormedArgv, ReadRequest, EndChild, WasStarted, LaunchEnabled, LaunchWorld;
    hide Submit, HookState.Stop, MayRestart, Restart, Launch, Receive, FailSupervisor, ReapSupervisor;
    hide ExpireFrom, Deliver;
    match step
    case SupervisorReads(fork, heard) =>
      if w.supervisor.alive && w.requests != [] && w.waiting != [] {
        ReadKeepsStarts(w, fork, heard);
      }
    case ChildEnds(i, status, execErrno, heard) =>
      if w.supervisor.alive && i < |w.supervisor.table| {
        EndKeepsStarts(w, i, status, execErrno, heard);
      }
    case _ => OthersRecordNothing(w, step);
  }

  lemma OthersRecordNothing(w: World, step: Step)
    requires !step.SupervisorReads? && !step.ChildEnds?
    ensures Next(w, step).record == w.record && Next(w, step).starts == w.starts
  {
    hide WellFormedArgv, Submit, HookState.Stop, MayRestart, Restart, Launch, Receive, FailSupervisor;
    hide ReapSupervisor, ExpireFrom, Deliver, Choose, MayLaunch, HookCodec.Fits, HookCodec.Encodable;
  }

  lemma {:induction false} RunKeepsStarts(w: World, steps: seq<Step>)
    requires WorldInv(w) && StartsOk(w)
    ensures StartsOk(Run(w, steps)) && w.starts <= Run(w, steps).starts
    decreases |steps|
  {
    hide WorldInv, StartsOk, Next;
    if steps != [] {
      StepKeeps(w, steps[0]);
      StepKeepsStarts(w, steps[0]);
      RunKeepsStarts(Next(w, steps[0]), steps[1..]);
    }
  }

  /**
   Through any number of supervisor failures and restarts no job id is ever forked twice, only ids
   of launched jobs are forked, and the forked ids are exactly those whose start is on record.
   */
  lemma NothingRunsTwice(w: World)
    requires Reachable(w)
    ensures forall i, k :: 0 <= i < k < |w.starts| ==> w.starts[i] != w.starts[k]
    ensures forall i :: 0 <= i < |w.starts| ==> 1 <= w.starts[i] <= |w.exec.launches|
    ensures forall id: nat :: id in w.starts <==> WasStarted(w.record, id)
  {
    StartsAreOk(w);
    ReachableKeeps(w);
    hide Reachable, Inv;
    assert RecordOk(w);
    hide WorldInv, Channel, RecordOk, WasStarted;
    forall i | 0 <= i < |w.starts| ensures 1 <= w.starts[i] <= |w.exec.launches| {
      assert w.starts[i] in w.starts;
      StartedWasLaunched(w, w.starts[i]);
    }
  }

  lemma StartsAreOk(w: World)
    requires Reachable(w)
    ensures StartsOk(w)
  {
    hide WorldInv, StartsOk, Run, Next, InitWorld;
    var options, pid, steps :| ValidOptions(options) && w == Run(InitWorld(options, pid), steps);
    InitWorldOk(options, pid);
    NothingStarted(options, pid);
    RunKeepsStarts(InitWorld(options, pid), steps);
  }

  lemma NothingStarted(options: Options, pid: int)
    ensures StartsOk(InitWorld(options, pid))
  {
  }

  lemma StartedWasLaunched(w: World, id: nat)
    requires RecordOk(w) && WasStarted(w.record, id)
    ensures 1 <= id <= |w.exec.launches|
  {
  }

  // ---- Theorems ----

  /** Conservation: submitted = completed + dropped + coalesced + pending + running. */
  lemma Conservation(w: World)
    requires Reachable(w)
    ensures var e := w.exec;
            e.submitted == e.completed + e.dropped + e.coalesced + PendingCount(e) + |e.children|
  {
    hide Reachable, Channel;
    ReachableKeeps(w);
    EveryTicketCountsOnce(w.exec.ledger);
    hide Count, QueuesOk, AdmissionOk, ChildrenOk, LaunchesOk, CallbacksOk;
  }

  /** The counters mean what the status page calls them. */
  lemma CountersCountFates(w: World)
    requires Reachable(w)
    ensures CountersOk(w.exec)
  {
    hide Reachable, Channel, QueuesOk, AdmissionOk, ChildrenOk, LaunchesOk, CallbacksOk, CountersOk;
    ReachableKeeps(w);
  }

  /**
   Exactly-once results. The `k`-th launch is either still in the child table, under job id `k`
   and nowhere else, or has been finished under that id and has left the table; no ticket is
   launched twice, and while the table is empty every launch has been finished.
   */
  lemma ExactlyOnceResults(w: World, k: nat)
    requires Reachable(w) && k < |w.exec.launches|
    ensures var e := w.exec; var t := e.launches[k];
            && t < |e.ledger|
            && (e.ledger[t].fate == Running(k + 1) || (e.ledger[t].fate.Done? && e.ledger[t].fate.finishedId == k + 1))
            && (e.ledger[t].fate.Running? <==> HasChild(e.children, k + 1))
            && (e.ledger[t].fate.Running? ==> exists i :: 0 <= i < |e.children| && e.children[i].job == e.ledger[t].job)
    ensures forall j :: 0 <= j < |w.exec.launches| && j != k ==> w.exec.launches[j] != w.exec.launches[k]
    ensures w.exec.children == [] ==> w.exec.ledger[w.exec.launches[k]].fate.Done?
  {
    hide Reachable, Channel, QueuesOk, AdmissionOk, CallbacksOk, CountersOk;
    ReachableKeeps(w);
    hide Reachable;
    LaunchIsRunningOrDone(w.exec, k);
  }

  lemma LaunchIsRunningOrDone(e: Exec, k: nat)
    requires ChildrenOk(e) && LaunchesOk(e) && k < |e.launches|
    ensures var t := e.launches[k];
            && t < |e.ledger|
            && (e.ledger[t].fate == Running(k + 1) || (e.ledger[t].fate.Done? && e.ledger[t].fate.finishedId == k + 1))
            && (e.ledger[t].fate.Running? <==> HasChild(e.children, k + 1))
            && (e.ledger[t].fate.Running? ==> exists i :: 0 <= i < |e.children| && e.children[i].job == e.ledger[t].job)
    ensures forall j :: 0 <= j < |e.launches| && j != k ==> e.launches[j] != e.launches[k]
    ensures e.children == [] ==> e.ledger[e.launches[k]].fate.Done?
  {
    LaunchFate(e, k);
    LaunchesDistinct(e.ledger, e.launches, k);
    hide ChildrenOk, LaunchesOk;
    if e.ledger[e.launches[k]].fate.Running? {
      RunningHasChild(e, k);
    }
    if HasChild(e.children, k + 1) {
      ChildIsRunning(e, k);
    }
  }

  lemma LaunchFate(e: Exec, k: nat)
    requires LaunchesOk(e) && k < |e.launches|
    ensures e.launches[k] < |e.ledger| && WasLaunched(e.ledger[e.launches[k]].fate, k + 1)
    ensures LaunchesFiled(e.ledger, e.launches)
  {
    hide LaunchesOrdered, LaunchesPrecede, WasLaunched;
  }

  lemma RunningHasChild(e: Exec, k: nat)
    requires ChildrenOk(e) && k < |e.launches| && e.launches[k] < |e.ledger|
    requires e.ledger[e.launches[k]].fate == Running(k + 1)
    ensures HasChild(e.children, k + 1)
  {
    assert RunningFound(e.ledger, e.children);
    hide ChildrenOk;
  }

  lemma ChildIsRunning(e: Exec, k: nat)
    requires ChildrenOk(e) && k < |e.launches| && e.launches[k] < |e.ledger| && HasChild(e.children, k + 1)
    ensures e.ledger[e.launches[k]].fate == Running(k + 1)
    ensures exists i :: 0 <= i < |e.children| && e.children[i].job == e.ledger[e.launches[k]].job
  {
    assert ChildrenFiled(e.ledger, e.children, e.launches);
    hide ChildrenOk;
    var i :| 0 <= i < |e.children| && e.children[i].jobId == k + 1;
    assert Filed(e.ledger, e.children[i].job, Running(k + 1));
    assert e.launches[e.children[i].jobId - 1] == e.children[i].job.ticket;
  }

  lemma LaunchesDistinct(ledger: seq<Entry>, launches: seq<nat>, k: nat)
    requires LaunchesFiled(ledger, launches) && k < |launches|
    ensures forall j :: 0 <= j < |launches| && j != k ==> launches[j] != launches[k]
  {
    forall j | 0 <= j < |launches| && j != k ensures launches[j] != launches[k] {
      assert WasLaunched(ledger[launches[j]].fate, j + 1) && WasLaunched(ledger[launches[k]].fate, k + 1);
    }
  }

  /**
   Own results. A job finished by a response carries the argv, pid, status and errno that a
   supervisor recorded for that job's own command line, never those of another job.
   */
  lemma OwnResult(w: World, t: nat)
    requires Reachable(w) && t < |w.exec.ledger|
    requires w.exec.ledger[t].fate.Done? && w.exec.ledger[t].fate.cause.OwnResponse?
    ensures var f := w.exec.ledger[t].fate;
            && 1 <= f.finishedId <= |w.exec.launches| && w.exec.launches[f.finishedId - 1] == t
            && Reports(w.record, f.finishedId, f.result)
            && (w.record[f.finishedId].Ended? ==> w.record[f.finishedId].argv == w.exec.ledger[t].job.request.argv)
  {
    hide Reachable, QueuesOk, AdmissionOk, ChildrenOk, CallbacksOk, CountersOk, IsRequest, Truthful, HasPid;
    ReachableKeeps(w);
    var f := w.exec.ledger[t].fate;
    assert 1 <= f.finishedId <= |w.exec.launches| && w.exec.launches[f.finishedId - 1] == t;
    hide LaunchesOk, Inv;
    assert LaunchedArgv(w.exec, f.finishedId) == w.exec.ledger[t].job.request.argv;
    hide LaunchedArgv;
  }

  ghost function Tickets(deliveries: seq<Delivery>): seq<nat> {
    seq(|deliveries|, i requires 0 <= i < |deliveries| => deliveries[i].ticket)
  }

  lemma {:induction false} CountOnce(s: seq<nat>, x: nat)
    requires forall i, k :: 0 <= i < k < |s| ==> s[i] != s[k]
    ensures multiset(s)[x] == if x in s then 1 else 0
  {
    if s != [] {
      assert s == [s[0]] + s[1..];
      CountOnce(s[1..], x);
      assert multiset(s) == multiset{s[0]} + multiset(s[1..]);
    }
  }

  /**
   Exactly-once callbacks: of all the callbacks ever queued, one belongs to each ticket that was
   coalesced, evicted, failed at launch or finished and has a callback, and none to any other;
   those still waiting to be delivered are the newest of them, in order.
   */
  lemma CallbackExactlyOnce(w: World, t: nat)
    requires Reachable(w) && t < |w.exec.ledger|
    ensures multiset(Tickets(w.exec.posted))[t] == if Due(w.exec.ledger[t]) then 1 else 0
    ensures Suffix(w.exec.completions, w.exec.posted)
  {
    hide Reachable, Channel, QueuesOk, AdmissionOk, ChildrenOk, LaunchesOk, CountersOk;
    ReachableKeeps(w);
    PostedOnce(w.exec, t);
  }

  lemma PostedOnce(e: Exec, t: nat)
    requires CallbacksOk(e) && t < |e.ledger|
    ensures multiset(Tickets(e.posted))[t] == if Due(e.ledger[t]) then 1 else 0
  {
    hide Due, DueResult;
    var s := Tickets(e.posted);
    CountOnce(s, t);
    if Due(e.ledger[t]) {
      assert IsPosted(e.posted, t);
      var i :| 0 <= i < |e.posted| && e.posted[i].ticket == t;
      assert s[i] == t;
    }
  }

  /** The callback of a ticket is given that ticket's own outcome. */
  lemma CallbackCarriesOwnResult(w: World, i: nat)
    requires Reachable(w) && i < |w.exec.posted|
    ensures w.exec.posted[i].ticket < |w.exec.ledger|
    ensures w.exec.posted[i].result == DueResult(w.exec.ledger[w.exec.posted[i].ticket])
  {
    hide Reachable, Channel, QueuesOk, AdmissionOk, ChildrenOk, LaunchesOk, CountersOk;
    ReachableKeeps(w);
  }

  /** Mutual exclusion: running children never share a non-empty serial key. */
  lemma SerialMutualExclusion(w: World, i: nat, k: nat)
    requires Reachable(w) && i < k < |w.exec.children|
    requires w.exec.children[i].job.request.serialKey == w.exec.children[k].job.request.serialKey
    ensures w.exec.children[i].job.request.serialKey == ""
    ensures |w.exec.children| <= w.exec.options.maxConcurrent
  {
    hide Reachable, Channel, QueuesOk, AdmissionOk, LaunchesOk, CallbacksOk, CountersOk;
    ReachableKeeps(w);
  }

  /** Order: jobs of one class with the same serial key launch in the order they were submitted. */
  lemma SerialOrder(w: World, a: nat, b: nat)
    requires Reachable(w) && a < b < |w.exec.launches|
    ensures w.exec.launches[a] < |w.exec.ledger| && w.exec.launches[b] < |w.exec.ledger|
    ensures SameLine(w.exec.ledger[w.exec.launches[a]].job, w.exec.ledger[w.exec.launches[b]].job) ==>
              w.exec.launches[a] < w.exec.launches[b]
  {
    hide Reachable, Channel, QueuesOk, AdmissionOk, ChildrenOk, CallbacksOk, CountersOk, SameLine;
    ReachableKeeps(w);
  }

  /** Admission: the pending queues are bounded, sorted by class, and never repeat a coalesce key. */
  lemma QueueAdmission(w: World)
    requires Reachable(w)
    ensures var e := w.exec;
            && PendingCount(e) <= e.options.maxPending
            && KeysUnique(e.critical) && KeysUnique(e.normal) && KeysDisjoint(e.critical, e.normal)
            && QueueFiled(e.ledger, e.critical, Critical) && QueueFiled(e.ledger, e.normal, Normal)
            && PendingFound(e.ledger, e.critical, e.normal)
  {
    hide Reachable, Channel, ChildrenOk, LaunchesOk, CallbacksOk, CountersOk;
    ReachableKeeps(w);
    hide KeysUnique, KeysDisjoint, QueueFiled, PendingFound, QueueDistinct, QueueOrdered;
  }

  /** A critical job with no coalesce key is rejected, still waiting, launched, tried, or dropped by stop. */
  lemma CriticalJobsAreKept(w: World, t: nat)
    requires Reachable(w) && t < |w.exec.ledger|
    requires w.exec.ledger[t].job.request.priority.Critical? && w.exec.ledger[t].job.request.coalesceKey == ""
    ensures !w.exec.ledger[t].fate.Superseded? && !w.exec.ledger[t].fate.Evicted?
  {
    hide Reachable, Channel, QueuesOk, ChildrenOk, LaunchesOk, CallbacksOk, CountersOk;
    ReachableKeeps(w);
  }

  /** While the supervisor is down nothing is in flight: its loss has finished every child. */
  lemma LossFinishesEveryChild(w: World)
    requires Reachable(w)
    ensures w.exec.supervisorFailed ==> w.exec.children == []
  {
    hide Reachable, Channel, Core;
    ReachableKeeps(w);
  }

  // ---- After the worker has exited ----

  /** What the worker leaves behind: nothing waits, nothing runs and no callback is undelivered. */
  predicate Settled(e: Exec) {
    && e.stopping && !e.connected
    && e.critical == [] && e.normal == [] && e.children == [] && e.completions == []
  }

  lemma SettledStays(e: Exec, s: Submission, now: int, gone: bool)
    requires Settled(e)
    ensures Settled(Submit(e, s)) && Settled(HookState.Stop(e, now))
    ensures Settled(ReapSupervisor(e, gone)) && Settled(Deliver(e))
  {
    hide DiscardAll;
  }

  lemma StepStaysSettled(w: World, step: Step)
    requires w.exited ==> Settled(w.exec)
    ensures Next(w, step).exited ==> Settled(Next(w, step).exec)
  {
    hide Submit, HookState.Stop, Restart, Launch, Receive, FailSupervisor, ReapSupervisor, ExpireFrom;
    hide Deliver, ReadRequest, RemoveAt, WellFormedArgv, MayRestart, MayLaunch, Choose;
    if w.exited {
      SettledStays(w.exec, if step.SubmitStep? then step.request else Submission([], Normal, "", "", false),
                   if step.StopStep? then step.now else 0, if step.ReapStep? then step.gone else false);
    }
    if step.SupervisorReads? && w.supervisor.alive && w.requests != [] && w.waiting != [] {
      ReadKeepsExec(w, step.fork, step.heard);
    }
  }

  lemma {:induction false} RunStaysSettled(w: World, steps: seq<Step>)
    requires w.exited ==> Settled(w.exec)
    ensures Run(w, steps).exited ==> Settled(Run(w, steps).exec)
    decreases |steps|
  {
    hide Settled, Next;
    if steps != [] {
      StepStaysSettled(w, steps[0]);
      RunStaysSettled(Next(w, steps[0]), steps[1..]);
    }
  }

  lemma ReachableSettled(w: World)
    requires Reachable(w) && w.exited
    ensures Settled(w.exec)
  {
    hide Run, Settled, ValidOptions;
    var options, pid, steps :| ValidOptions(options) && w == Run(InitWorld(options, pid), steps);
    RunStaysSettled(InitWorld(options, pid), steps);
  }

  /**
   Once the worker has exited, whatever is still submitted, stopped or delivered: nothing waits or
   runs, every submission has met its final fate, every launch has been finished under its own id,
   and no callback is left undelivered.
   */
  lemma ExitSettlesEverything(w: World)
    requires Reachable(w) && w.exited
    ensures Settled(w.exec)
    ensures forall t :: 0 <= t < |w.exec.ledger| ==> Final(w.exec.ledger[t].fate)
    ensures forall k :: 0 <= k < |w.exec.launches| ==>
              var t := w.exec.launches[k];
              t < |w.exec.ledger| && w.exec.ledger[t].fate.Done? && w.exec.ledger[t].fate.finishedId == k + 1
  {
    ReachableSettled(w);
    ReachableKeeps(w);
    EmptyMeansFinal(w);
    hide Reachable, WorldInv;
    forall k | 0 <= k < |w.exec.launches|
      ensures var t := w.exec.launches[k];
              t < |w.exec.ledger| && w.exec.ledger[t].fate.Done? && w.exec.ledger[t].fate.finishedId == k + 1
    {
      LaunchIsDone(w, k);
    }
  }

  lemma EmptyMeansFinal(w: World)
    requires WorldInv(w) && w.exec.critical == [] && w.exec.normal == [] && w.exec.children == []
    ensures forall t :: 0 <= t < |w.exec.ledger| ==> Final(w.exec.ledger[t].fate)
  {
    assert QueuesOk(w.exec) && ChildrenOk(w.exec);
    hide WorldInv;
    assert PendingFound(w.exec.ledger, w.exec.critical, w.exec.normal);
    assert RunningFound(w.exec.ledger, w.exec.children);
    hide QueuesOk, ChildrenOk;
  }

  lemma LaunchIsDone(w: World, k: nat)
    requires WorldInv(w) && w.exec.children == [] && k < |w.exec.launches|
    ensures var t := w.exec.launches[k];
            t < |w.exec.ledger| && w.exec.ledger[t].fate.Done? && w.exec.ledger[t].fate.finishedId == k + 1
  {
    assert ChildrenOk(w.exec) && LaunchesOk(w.exec);
    hide WorldInv, ChildrenOk, LaunchesOk;
    LaunchIsRunningOrDone(w.exec, k);
  }
}
