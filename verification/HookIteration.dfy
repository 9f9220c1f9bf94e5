/** The worker's locked iteration is one of the runs of the protocol: its critical sections are protocol steps. */
module HookIteration {
  import opened Bytes
  import HookCodec
  import opened HookState
  import opened HookProtocol
  import opened HookTheorems
  import HookExecutorFacts

  lemma {:induction false} RunConcat(w: World, a: seq<Step>, b: seq<Step>)
    ensures Run(w, a + b) == Run(Run(w, a), b)
    decreases |a|
  {
    hide Next;
    if a == [] {
      assert a + b == b;
    } else {
      assert (a + b)[1..] == a[1..] + b;
      RunConcat(Next(w, a[0]), a[1..], b);
    }
  }

  lemma RunOne(w: World, step: Step)
    ensures Run(w, [step]) == Next(w, step)
  {
    hide Next;
    assert [step][1..] == [];
    assert Run(Next(w, step), []) == Next(w, step);
  }

  // ---- What the supervisor does meanwhile ----

  /** A step of the supervisor process or its end, which the worker's mutex does not keep from happening. */
  predicate Moves(step: Step) {
    step.SupervisorReads? || step.ChildEnds? || step.SupervisorGivesUp? || step.SupervisorDies?
  }

  predicate AllMove(steps: seq<Step>) {
    forall i :: 0 <= i < |steps| ==> Moves(steps[i])
  }

  lemma MoveKeepsExec(w: World, step: Step)
    requires Moves(step)
    ensures Next(w, step).exec == w.exec && Next(w, step).exited == w.exited
  {
    hide RemoveAt;
    if step.SupervisorReads? && w.supervisor.alive && w.requests != [] && w.waiting != [] {
      ReadKeepsExec(w, step.fork, step.heard);
    }
    hide ReadRequest;
  }

  lemma {:induction false} MovesKeepExec(w: World, moves: seq<Step>)
    requires AllMove(moves)
    ensures Run(w, moves).exec == w.exec && Run(w, moves).exited == w.exited
    decreases |moves|
  {
    hide Next, Moves;
    if moves != [] {
      assert Moves(moves[0]);
      MoveKeepsExec(w, moves[0]);
      MovesKeepExec(Next(w, moves[0]), moves[1..]);
    }
  }

  /** What the supervisor does before each system call of a loop, in order; none when the list has run out. */
  function First(gaps: seq<seq<Step>>): seq<Step> {
    if gaps == [] then [] else gaps[0]
  }

  function Rest(gaps: seq<seq<Step>>): seq<seq<Step>> {
    if gaps == [] then [] else gaps[1..]
  }

  predicate AllGapsMove(gaps: seq<seq<Step>>) {
    forall i :: 0 <= i < |gaps| ==> AllMove(gaps[i])
  }

  /** The inbox of a `recv` loop can be what the socket offers it while the supervisor moves. */
  predicate Readable(w: World, gaps: seq<seq<Step>>, inbox: seq<Incoming>)
    decreases |inbox|
  {
    var w1 := Run(w, First(gaps));
    inbox == [] ||
    match inbox[0]
    case Message(r) =>
      w1.responses != [] && w1.responses[0] == r && Readable(Next(w1, ReceiveStep), Rest(gaps), inbox[1..])
    case Interrupted => Readable(w1, Rest(gaps), inbox[1..])
    case _ => true
  }

  // ---- Launching ----

  lemma LaunchStepIs(w: World, outcome: SendOutcome, now: int, gone: bool)
    requires LaunchEnabled(w)
    ensures var c, w' := Choose(w.exec), Next(w, LaunchStep(outcome, now, gone));
            w'.exec == Launch(w.exec, c.priority, c.index, outcome, now, gone) && w'.exited == w.exited
  {
    hide Choose, Launch, MayLaunch, HookCodec.Fits, HookCodec.Encodable, HookCodec.LaunchBytes;
  }

  /** The world after the launch loop, with the supervisor moving before each send. */
  function Launched(w: World, gaps: seq<seq<Step>>, outcomes: seq<SendOutcome>, now: int, gone: bool): World
    decreases |outcomes|
  {
    var c := Choose(w.exec);
    if outcomes == [] || !MayLaunch(w.exec) || c.NoJob? then w
    else
      var w' := Next(Run(w, First(gaps)), LaunchStep(outcomes[0], now, gone));
      if Backpressured(w.exec, c, outcomes[0]) then w' else Launched(w', Rest(gaps), outcomes[1..], now, gone)
  }

  lemma LaunchOnce(w: World, moves: seq<Step>, outcome: SendOutcome, now: int, gone: bool)
    requires AllMove(moves) && LaunchEnabled(w)
    ensures var c := Choose(w.exec); var e' := Launch(w.exec, c.priority, c.index, outcome, now, gone);
            var w' := Next(Run(w, moves), LaunchStep(outcome, now, gone));
            && w'.exec == e' && w'.exited == w.exited && w' == Run(w, moves + [LaunchStep(outcome, now, gone)])
            && e'.nextJobId <= w.exec.nextJobId + 1
  {
    MovesKeepExec(w, moves);
    var w1 := Run(w, moves);
    assert LaunchEnabled(w1);
    hide Next, Run, Choose, Launch, LaunchEnabled, AllMove;
    LaunchStepIs(w1, outcome, now, gone);
    HookExecutorFacts.LaunchNumbers(w1.exec, outcome, now, gone);
    RunConcat(w, moves, [LaunchStep(outcome, now, gone)]);
    RunOne(w1, LaunchStep(outcome, now, gone));
  }

  lemma {:induction false} LaunchingIsRun(w: World, gaps: seq<seq<Step>>, outcomes: seq<SendOutcome>,
                                          now: int, gone: bool) returns (steps: seq<Step>)
    requires !w.exited && w.exec.nextJobId + |outcomes| <= U64_LIMIT && AllGapsMove(gaps)
    ensures var w' := Launched(w, gaps, outcomes, now, gone);
            w' == Run(w, steps) && w'.exec == LaunchRounds(w.exec, outcomes, now, gone) && !w'.exited
    decreases |outcomes|
  {
    hide Choose, Launch, Next, Run, MayLaunch, Backpressured, AllMove;
    var c := Choose(w.exec);
    if outcomes == [] || !MayLaunch(w.exec) || c.NoJob? {
      steps := [];
      RunNothing(w);
    } else {
      var moves, step := First(gaps), LaunchStep(outcomes[0], now, gone);
      GapMoves(gaps);
      LaunchOnce(w, moves, outcomes[0], now, gone);
      var w' := Next(Run(w, moves), step);
      if Backpressured(w.exec, c, outcomes[0]) {
        steps := moves + [step];
      } else {
        var more := LaunchingIsRun(w', Rest(gaps), outcomes[1..], now, gone);
        RunConcat(w, moves + [step], more);
        steps := moves + [step] + more;
      }
    }
  }

  lemma RunNothing(w: World)
    ensures Run(w, []) == w
  {
  }

  lemma GapMoves(gaps: seq<seq<Step>>)
    requires AllGapsMove(gaps)
    ensures AllMove(First(gaps)) && AllGapsMove(Rest(gaps))
  {
    hide Moves;
  }

  // ---- Receiving ----

  lemma {:induction false} ReceivingIsRun(w: World, gaps: seq<seq<Step>>, inbox: seq<Incoming>,
                                          now: int, gone: bool) returns (steps: seq<Step>)
    requires AllGapsMove(gaps) && (w.exec.connected ==> Readable(w, gaps, inbox))
    ensures Run(w, steps).exec == ReceiveAll(w.exec, inbox, now, gone) && Run(w, steps).exited == w.exited
    decreases |inbox|
  {
    hide Next, Run, Receive, FailSupervisor, AllMove;
    if !w.exec.connected || inbox == [] {
      RunNothing(w);
      return [];
    }
    var moves := First(gaps);
    GapMoves(gaps);
    MovesKeepExec(w, moves);
    var w1 := Run(w, moves);
    match inbox[0]
    case Empty =>
      RunNothing(w);
      steps := [];
    case Interrupted =>
      var more := ReceivingIsRun(w1, Rest(gaps), inbox[1..], now, gone);
      RunConcat(w, moves, more);
      steps := moves + more;
    case Broken(error) =>
      BreakIs(w, error, now, gone);
      RunOne(w, BreakStep(error, now, gone));
      steps := [BreakStep(error, now, gone)];
    case Message(r) =>
      ReceiveIs(w1);
      HookExecutorFacts.ReceiveStaysConnected(w1.exec, r);
      var more := ReceivingIsRun(Next(w1, ReceiveStep), Rest(gaps), inbox[1..], now, gone);
      RunOne(w1, ReceiveStep);
      RunConcat(w, moves, [ReceiveStep]);
      RunConcat(w, moves + [ReceiveStep], more);
      steps := moves + [ReceiveStep] + more;
  }

  lemma BreakIs(w: World, error: int, now: int, gone: bool)
    requires w.exec.connected
    ensures var w' := Next(w, BreakStep(error, now, gone));
            w'.exec == FailSupervisor(w.exec, error, now, gone) && w'.exited == w.exited
  {
    hide FailSupervisor;
  }

  lemma ReceiveIs(w: World)
    requires w.exec.connected && w.responses != []
    ensures Next(w, ReceiveStep) == w.(exec := Receive(w.exec, w.responses[0]), responses := w.responses[1..])
  {
    hide Receive;
  }

  // ---- The iteration ----

  lemma RestartIs(w: World, spawn: Spawn, now: int)
    requires !w.exited && MayRestart(w.exec, now) && (spawn.Spawned? ==> spawn.pid > 0)
    ensures var w' := Next(w, RestartStep(spawn, now)); w'.exec == Restart(w.exec, spawn, now) && !w'.exited
  {
  }

  lemma ExpireIs(w: World, now: int, gone: bool)
    requires !w.exited
    ensures Next(w, ExpireStep(now, gone)).exec == ExpireFrom(w.exec, 0, now, gone)
    ensures Next(w, ReapStep(gone)).exec == if w.exec.supervisorFailed then ReapSupervisor(w.exec, gone) else w.exec
    ensures !Next(w, ReapStep(gone)).exited
  {
    hide ExpireFrom, ReapSupervisor;
  }

  /** The world when the worker has looked after its supervisor. */
  function Restarted(w: World, spawn: Spawn, now: int): World {
    if MayRestart(w.exec, now) then Next(w, RestartStep(spawn, now)) else w
  }

  /**
   Whatever one locked iteration of the worker does, some sequence of protocol steps does: what holds
   of every run holds of the program's own. The supervisor may move before each `send` (`sends`) and
   each `recv` (`recvs`), so the inbox may hold answers it gives while the iteration is under way.
   */
  lemma IterationIsRun(w: World, spawn: Spawn, sends: seq<seq<Step>>, outcomes: seq<SendOutcome>,
                       recvs: seq<seq<Step>>, inbox: seq<Incoming>, now: int, gone: bool)
    returns (steps: seq<Step>)
    requires !w.exited && (spawn.Spawned? ==> spawn.pid > 0) && w.exec.nextJobId + |outcomes| <= U64_LIMIT
    requires AllGapsMove(sends) && AllGapsMove(recvs)
    requires var w2 := Launched(Restarted(w, spawn, now), sends, outcomes, now, gone);
             w2.exec.connected ==> Readable(w2, recvs, inbox)
    ensures Run(w, steps).exec == Iterate(w.exec, spawn, outcomes, inbox, now, gone)
  {
    hide Next, Run, LaunchRounds, ReceiveAll, ExpireFrom, ReapSupervisor, Readable, Launched, MayRestart, AllGapsMove;
    hide Restart;
    var restart := AfterRestart(w, spawn, now);
    var w1 := Run(w, restart);
    var launches := LaunchingIsRun(w1, sends, outcomes, now, gone);
    var w2 := Run(w1, launches);
    var receives := ReceivingIsRun(w2, recvs, inbox, now, gone);
    var w3 := Run(w2, receives);
    ExpireIs(w3, now, gone);
    RunOne(w3, ReapStep(gone));
    var w4 := Next(w3, ReapStep(gone));
    ExpireIs(w4, now, gone);
    RunOne(w4, ExpireStep(now, gone));
    RunConcat(w, restart, launches);
    RunConcat(w, restart + launches, receives);
    RunConcat(w, restart + launches + receives, [ReapStep(gone)]);
    RunConcat(w, restart + launches + receives + [ReapStep(gone)], [ExpireStep(now, gone)]);
    steps := restart + launches + receives + [ReapStep(gone)] + [ExpireStep(now, gone)];
  }

  lemma AfterRestart(w: World, spawn: Spawn, now: int) returns (steps: seq<Step>)
    requires !w.exited && (spawn.Spawned? ==> spawn.pid > 0)
    ensures var w1 := Run(w, steps);
            && w1 == Restarted(w, spawn, now) && !w1.exited && w1.exec.nextJobId == w.exec.nextJobId
            && w1.exec == (if MayRestart(w.exec, now) then Restart(w.exec, spawn, now) else w.exec)
  {
    hide Next;
    steps := [];
    if MayRestart(w.exec, now) {
      RestartIs(w, spawn, now);
      RunOne(w, RestartStep(spawn, now));
      steps := [RestartStep(spawn, now)];
    }
  }
}
