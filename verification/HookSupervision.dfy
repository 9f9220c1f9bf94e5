/** What the supervisor does with a launch request, and what it reports when a child has ended. */
module HookSupervision {
  import opened HookCodec
  import opened HookState
  import opened HookProtocol
  import opened HookChannel
  import opened HookTheorems

  /** A response reaches the socket, or the supervisor gives up; nothing else differs from `w`. */
  predicate Responds(w: World, w': World, r: Response, heard: bool) {
    && w'.responses == (if heard then w.responses + [r] else w.responses)
    && w'.supervisor.stopping == (w.supervisor.stopping || !heard)
    && w'.exec == w.exec && w'.supervisor.alive == w.supervisor.alive && w'.exited == w.exited
  }

  /**
   In every reachable world the request at the front is served as the job it was sent for. A stopping
   supervisor drops it. A fork that gives a process starts that job's own command line once, files the
   process and answers with its pid; a fork that fails refuses the job with exit code 127 and the error.
   */
  lemma RequestIsServed(w: World, fork: Fork, heard: bool)
    requires Reachable(w) && w.supervisor.alive && w.requests != []
    ensures w.waiting != []
    ensures var w', id := Next(w, SupervisorReads(fork, heard)), w.waiting[0];
            var argv := LaunchedArgv(w.exec, id);
            && w'.requests == w.requests[1..] && w'.waiting == w.waiting[1..]
            && (if w.supervisor.stopping then
                  w' == w.(requests := w'.requests, waiting := w'.waiting)
                else if fork.Forked? && fork.pid > 0 then
                  && w'.record == w.record[id := Started(argv, fork.pid)] && w'.starts == w.starts + [id]
                  && w'.supervisor.table == w.supervisor.table + [Process(id, fork.pid)]
                  && Responds(w, w', Launched(id, fork.pid), heard)
                else
                  var error := if fork.ForkFailed? then fork.error else 22;
                  && w'.record == w.record[id := HookProtocol.Refused(error)] && w'.starts == w.starts
                  && w'.supervisor.table == w.supervisor.table
                  && Responds(w, w', Finished(id, -1, Exited(127), error), heard))
  {
    hide Reachable, IsRequest, Truthful, HasPid, Reports, WellFormedArgv, LaunchedArgv;
    ReachableKeeps(w);
    assert RequestsOk(w);
    hide WorldInv;
    FrontIsRequest(w);
    RequestDecodes(w.requests[0], w.waiting[0], LaunchedArgv(w.exec, w.waiting[0]));
    hide Decode, RequestsOk;
  }

  lemma FrontIsRequest(w: World)
    requires RequestsOk(w) && w.requests != []
    ensures w.waiting != [] && IsRequest(w.requests[0], w.waiting[0], LaunchedArgv(w.exec, w.waiting[0]))
  {
    hide IsRequest, LaunchedArgv;
  }

  /** The end of a child is reported once, under its own id, with its pid, status and exec error. */
  lemma EndIsReported(w: World, i: nat, status: WaitStatus, execErrno: int, heard: bool)
    requires Reachable(w) && w.supervisor.alive && i < |w.supervisor.table|
    ensures var w', p := Next(w, ChildEnds(i, status, execErrno, heard)), w.supervisor.table[i];
            && p.jobId in w.record && w.record[p.jobId].Started? && w.record[p.jobId].pid == p.pid
            && w'.record == w.record[p.jobId := Ended(w.record[p.jobId].argv, p.pid, status, execErrno)]
            && w'.supervisor.table == w.supervisor.table[..i] + w.supervisor.table[i + 1..]
            && w'.requests == w.requests && w'.waiting == w.waiting && w'.starts == w.starts
            && Responds(w, w', Finished(p.jobId, p.pid, status, execErrno), heard)
  {
    hide Reachable, IsRequest, Truthful, HasPid, Reports, WellFormedArgv, LaunchedArgv;
    ReachableKeeps(w);
    assert TableOk(w);
    hide WorldInv;
  }
}
