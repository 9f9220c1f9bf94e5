/**
 The executor, its supervisor process and the socket between them as one transition system.
 The outcomes of system calls and the loss of the supervisor are chosen freely by the steps.
 */
module HookProtocol {
  import opened Bytes
  import opened HookCodec
  import opened HookState

  /** What the supervisors did for a job id, kept as history. */
  datatype Execution =
    | Refused(error: int)
    | Started(argv: seq<Argument>, pid: int)
    | Ended(argv: seq<Argument>, pid: int, status: WaitStatus, execErrno: int)

  datatype Process = Process(jobId: nat, pid: int)

  datatype Supervisor = Supervisor(alive: bool, stopping: bool, table: seq<Process>)

  /**
   `requests` and `responses` are the two directions of the current socket, oldest first;
   `waiting` names the job id of each request still in transit. `starts` lists the job ids for
   which a process was forked, by any supervisor, in order.
   */
  datatype World = World(
    exec: Exec, requests: seq<seq<byte>>, waiting: seq<nat>, responses: seq<Response>,
    supervisor: Supervisor, record: map<nat, Execution>, exited: bool, starts: seq<nat>)

  datatype Fork = Forked(pid: int) | ForkFailed(error: int)

  datatype Step =
    | SubmitStep(request: Submission)
    | StopStep(now: int)
    | RestartStep(spawn: Spawn, now: int)
    | LaunchStep(outcome: SendOutcome, now: int, gone: bool)
    | ReceiveStep
    | BreakStep(error: int, now: int, gone: bool)
    | ReapStep(gone: bool)
    | ExpireStep(now: int, gone: bool)
    | DeliverStep
    | ExitStep
    | SupervisorReads(fork: Fork, heard: bool)
    | ChildEnds(index: nat, status: WaitStatus, execErrno: int, heard: bool)
    | SupervisorGivesUp
    | SupervisorDies

  const NO_SUPERVISOR: Supervisor := Supervisor(false, true, [])
  const NEW_SUPERVISOR: Supervisor := Supervisor(true, false, [])

  function InitWorld(options: Options, pid: int): World {
    World(Init(options, pid), [], [], [], NEW_SUPERVISOR, map[], false, [])
  }

  /** Closing the socket loses what is in transit and kills the supervisor. */
  function WithExec(w: World, e: Exec): World {
    if e.connected then w.(exec := e)
    else w.(exec := e, requests := [], waiting := [], responses := [], supervisor := NO_SUPERVISOR)
  }

  function Respond(w: World, response: Response, heard: bool): World {
    if heard then w.(responses := w.responses + [response])
    else w.(supervisor := w.supervisor.(stopping := true))
  }

  predicate LaunchEnabled(w: World) {
    !w.exited && MayLaunch(w.exec) && Choose(w.exec).Chosen? && w.exec.nextJobId < U64_LIMIT
  }

  function LaunchWorld(w: World, outcome: SendOutcome, now: int, gone: bool): World
    requires LaunchEnabled(w)
  {
    var c := Choose(w.exec);
    var argv := Queue(w.exec, c.priority)[c.index].request.argv;
    var e' := Launch(w.exec, c.priority, c.index, outcome, now, gone);
    if Fits(argv) && outcome.Sent? && Encodable(argv) then
      w.(exec := e', requests := w.requests + [LaunchBytes(w.exec.nextJobId, argv)],
         waiting := w.waiting + [w.exec.nextJobId])
    else WithExec(w, e')
  }

  function ReadRequest(w: World, fork: Fork, heard: bool): World
    requires w.supervisor.alive && w.requests != [] && w.waiting != []
  {
    var w' := w.(requests := w.requests[1..], waiting := w.waiting[1..]);
    match Decode(w.requests[0])
    case Ignored => w'
    case StopRequest => w'.(supervisor := w.supervisor.(stopping := true))
    case Malformed(id) =>
      if w.supervisor.stopping then w'
      else Respond(w'.(record := w.record[id := Refused(EINVAL)]), Finished(id, -1, Exited(127), EINVAL), heard)
    case LaunchRequest(id, argv) =>
      if w.supervisor.stopping then w'
      else if fork.ForkFailed? || fork.pid <= 0 then
        var error := if fork.ForkFailed? then fork.error else EINVAL;
        Respond(w'.(record := w.record[id := Refused(error)]), Finished(id, -1, Exited(127), error), heard)
      else
        Respond(w'.(record := w.record[id := Started(argv, fork.pid)], starts := w.starts + [id],
                    supervisor := w.supervisor.(table := w.supervisor.table + [Process(id, fork.pid)])),
                Launched(id, fork.pid), heard)
  }

  function EndChild(w: World, i: nat, status: WaitStatus, execErrno: int, heard: bool): World
    requires w.supervisor.alive && i < |w.supervisor.table|
  {
    var p := w.supervisor.table[i];
    var argv := if p.jobId in w.record && w.record[p.jobId].Started? then w.record[p.jobId].argv else [];
    Respond(w.(record := w.record[p.jobId := Ended(argv, p.pid, status, execErrno)],
               supervisor := w.supervisor.(table := RemoveAt(w.supervisor.table, i))),
            Finished(p.jobId, p.pid, status, execErrno), heard)
  }

  /** One step; a step whose guard does not hold leaves the world as it is. */
  function Next(w: World, step: Step): World {
    var e := w.exec;
    match step
    case SubmitStep(s) => if WellFormedArgv(s.argv) then w.(exec := Submit(e, s)) else w
    case StopStep(now) => w.(exec := HookState.Stop(e, now))
    case RestartStep(spawn, now) =>
      if w.exited || !MayRestart(e, now) || (spawn.Spawned? && spawn.pid == 0) then w
      else if spawn.Spawned? then
        w.(exec := Restart(e, spawn, now), requests := [], waiting := [], responses := [], supervisor := NEW_SUPERVISOR)
      else w.(exec := Restart(e, spawn, now))
    case LaunchStep(outcome, now, gone) => if LaunchEnabled(w) then LaunchWorld(w, outcome, now, gone) else w
    case ReceiveStep =>
      if !e.connected || w.responses == [] then w
      else w.(exec := Receive(e, w.responses[0]), responses := w.responses[1..])
    case BreakStep(error, now, gone) =>
      if !e.connected then w else WithExec(w, FailSupervisor(e, error, now, gone))
    case ReapStep(gone) => if e.supervisorFailed then w.(exec := ReapSupervisor(e, gone)) else w
    case ExpireStep(now, gone) => if w.exited then w else WithExec(w, ExpireFrom(e, 0, now, gone))
    case DeliverStep => w.(exec := Deliver(e))
    case ExitStep =>
      if e.stopping && PendingCount(e) == 0 && e.children == [] && e.completions == []
      then WithExec(w.(exited := true), e.(connected := false, supervisorPid := -1)) else w
    case SupervisorReads(fork, heard) =>
      if w.supervisor.alive && w.requests != [] && w.waiting != [] then ReadRequest(w, fork, heard) else w
    case ChildEnds(i, status, execErrno, heard) =>
      if w.supervisor.alive && i < |w.supervisor.table| then EndChild(w, i, status, execErrno, heard) else w
    case SupervisorGivesUp => w.(supervisor := w.supervisor.(stopping := true))
    case SupervisorDies => w.(supervisor := NO_SUPERVISOR)
  }

  function Run(w: World, steps: seq<Step>): World
    decreases |steps|
  {
    if steps == [] then w else Run(Next(w, steps[0]), steps[1..])
  }
}
