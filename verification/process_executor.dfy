/** The parent side of the process executor: the registry of running tasks,
    closing, and the listener that answers the status requests subprocesses
    send. Sockets, threads and subprocess spawning are left out; requests arrive
    already decoded, and what applying a request's tracked changes raises is a
    parameter. */
module ProcessExecutor {
  import opened Base

  const UpdateTrackedChangesFailed: string :=
    "Some changes failed writing to storage. For more info refer to the log."

  /** `_stopped` and the ids of `_tasks`. */
  datatype Executor = Executor(stopped: bool, tasks: set<string>)

  /** A new executor: running, with no tasks. */
  const Initial: Executor := Executor(false, {})

  /** A decoded request: its `type`, `task_id`, and for `failed` the exception
      text and traceback the subprocess reported. */
  datatype Request = Request(kind: string, taskId: string, exception: string, traceback: string)

  /** The response sent back for a request: `{}` or `{'exception': ...}`. */
  datatype Response = Response(exception: Option<string>)

  /** The engine signals a handler emits for a task. A failure carries its
      exception text and the traceback passed along, if any. */
  datatype TaskEvent =
    | TaskStarted(id: string)
    | TaskSucceeded(id: string)
    | TaskFailed(id: string, exception: string, traceback: Option<string>)

  /** What applying a request's tracked changes raised: the exception's
      message and the traceback `get_exception_as_string` renders for it. */
  datatype ApplyError = ApplyError(message: string, traceback: string)

  datatype CloseOutcome = CloseOutcome(executor: Executor, sentClosed: bool)

  /** `close`: the first call stops the executor and sends the `closed` message
      that wakes the listener; later calls return at once. */
  function Close(ex: Executor): (r: CloseOutcome)
    ensures r.executor.stopped && r.executor.tasks == ex.tasks
    ensures r.sentClosed <==> !ex.stopped
  {
    if ex.stopped then CloseOutcome(ex, false) else CloseOutcome(ex.(stopped := true), true)
  }

  lemma CloseIdempotent(ex: Executor)
    ensures Close(Close(ex).executor) == CloseOutcome(Close(ex).executor, false)
  {
  }

  /** `_execute`: registers the task, unless the executor is closed. */
  function Execute(ex: Executor, taskId: string): (r: Result<Executor>)
    ensures ex.stopped <==> r.Err?
    ensures r.Err? ==> r.msg == "Executor closed"
    ensures r.Ok? ==> r.value.tasks == ex.tasks + {taskId} && !r.value.stopped
  {
    if ex.stopped then Err("Executor closed") else Ok(ex.(tasks := ex.tasks + {taskId}))
  }

  /** After `close`, nothing can be executed. */
  lemma ExecuteAfterClose(ex: Executor, taskId: string)
    ensures Execute(Close(ex).executor, taskId) == Err("Executor closed")
  {
  }

  /** One handler call: the registry afterwards, the signals emitted, the
      exception that escaped the handler, and the exception the handler itself
      put into the response. */
  datatype Handled = Handled(
    executor: Executor,
    events: seq<TaskEvent>,
    raised: Option<string>,
    responseException: Option<string>)

  function KeyError(id: string): string {
    "KeyError: " + id
  }

  /** `_handle_task_started_request`: looks the task up and signals its start. */
  function HandleStarted(ex: Executor, id: string): (h: Handled)
    ensures h.executor == ex
    ensures id in ex.tasks ==> h == Handled(ex, [TaskStarted(id)], None, None)
    ensures id !in ex.tasks ==> h.raised.Some? && h.events == []
  {
    if id in ex.tasks then Handled(ex, [TaskStarted(id)], None, None)
    else Handled(ex, [], Some(KeyError(id)), None)
  }

  /** `_handle_task_succeeded_request`: removes the task, then reports it
      succeeded, or failed when its tracked changes could not be applied. */
  function HandleSucceeded(ex: Executor, id: string, applyError: Option<ApplyError>): (h: Handled)
    ensures h.executor.tasks == ex.tasks - {id} && h.executor.stopped == ex.stopped
    ensures id !in ex.tasks ==> h.raised.Some? && h.events == []
    ensures id in ex.tasks && applyError.None? ==> h.events == [TaskSucceeded(id)] && h.raised.None?
    ensures id in ex.tasks && applyError.Some? ==>
              h.events == [TaskFailed(id, applyError.value.message + UpdateTrackedChangesFailed, None)]
              && h.raised.None?
    ensures h.responseException.None?
  {
    if id !in ex.tasks then Handled(ex, [], Some(KeyError(id)), None)
    else
      var ex' := ex.(tasks := ex.tasks - {id});
      match applyError
      case None => Handled(ex', [TaskSucceeded(id)], None, None)
      case Some(e) => Handled(ex', [TaskFailed(id, e.message + UpdateTrackedChangesFailed, None)], None, None)
  }

  /** `_handle_task_failed_request`: removes the task and reports it failed,
      with the subprocess's exception and traceback, or with the application
      error that names it and that error's own traceback. */
  function HandleFailed(ex: Executor, req: Request, applyError: Option<ApplyError>): (h: Handled)
    ensures h.executor.tasks == ex.tasks - {req.taskId} && h.executor.stopped == ex.stopped
    ensures req.taskId !in ex.tasks ==> h.raised.Some? && h.events == []
    ensures req.taskId in ex.tasks && applyError.None? ==>
              h.events == [TaskFailed(req.taskId, req.exception, Some(req.traceback))]
    ensures req.taskId in ex.tasks && applyError.Some? ==>
              h.events == [TaskFailed(req.taskId,
                                      applyError.value.message + "Task failed due to " + req.exception + "."
                                        + UpdateTrackedChangesFailed,
                                      Some(applyError.value.traceback))]
    ensures req.taskId in ex.tasks ==> h.raised.None?
    ensures h.responseException.None?
  {
    var id := req.taskId;
    if id !in ex.tasks then Handled(ex, [], Some(KeyError(id)), None)
    else
      var ex' := ex.(tasks := ex.tasks - {id});
      match applyError
      case None => Handled(ex', [TaskFailed(id, req.exception, Some(req.traceback))], None, None)
      case Some(e) =>
        var message := e.message + "Task failed due to " + req.exception + "." + UpdateTrackedChangesFailed;
        Handled(ex', [TaskFailed(id, message, Some(e.traceback))], None, None)
  }

  /** `_handle_apply_tracked_changes_request`: an application error goes into
      the response instead of escaping. */
  function HandleApply(ex: Executor, id: string, applyError: Option<ApplyError>): (h: Handled)
    ensures h.executor == ex && h.events == []
    ensures id !in ex.tasks ==> h.raised.Some?
    ensures id in ex.tasks ==> h.raised.None? && (h.responseException.Some? <==> applyError.Some?)
    ensures id in ex.tasks && applyError.Some? ==> h.responseException == Some(applyError.value.message)
  {
    if id !in ex.tasks then Handled(ex, [], Some(KeyError(id)), None)
    else
      match applyError
      case None => Handled(ex, [], None, None)
      case Some(e) => Handled(ex, [], None, Some(e.message))
  }

  predicate IsHandledKind(kind: string) {
    kind in {"started", "succeeded", "failed", "apply_tracked_changes"}
  }

  /** One turn of the listener loop around `_accept_request`. */
  datatype Step = Step(executor: Executor, response: Response, events: seq<TaskEvent>, stop: bool)

  /** The handler table lookup and call: `closed` ends the loop, an unknown type
      raises, and whatever escapes the handler becomes the response's exception. */
  function Dispatch(ex: Executor, req: Request, applyError: Option<ApplyError>): (s: Step)
    ensures s.stop <==> req.kind == "closed"
    ensures s.stop ==> s == Step(ex, Response(None), [], true)
    ensures !s.stop && !IsHandledKind(req.kind) ==>
              s == Step(ex, Response(Some("Invalid request type: " + req.kind)), [], false)
    ensures s.executor.stopped == ex.stopped
    ensures req.kind in {"succeeded", "failed"} ==> s.executor.tasks == ex.tasks - {req.taskId}
    ensures req.kind !in {"succeeded", "failed"} ==> s.executor.tasks == ex.tasks
    ensures req.kind in {"started", "succeeded", "failed"} ==>
              (s.response.exception.Some? <==> req.taskId !in ex.tasks)
    ensures req.kind == "apply_tracked_changes" ==>
              (s.response.exception.Some? <==> req.taskId !in ex.tasks || applyError.Some?)
  {
    if req.kind == "closed" then Step(ex, Response(None), [], true)
    else if !IsHandledKind(req.kind) then
      Step(ex, Response(Some("Invalid request type: " + req.kind)), [], false)
    else
      var h :=
        if req.kind == "started" then HandleStarted(ex, req.taskId)
        else if req.kind == "succeeded" then HandleSucceeded(ex, req.taskId, applyError)
        else if req.kind == "failed" then HandleFailed(ex, req, applyError)
        else HandleApply(ex, req.taskId, applyError);
      var response := if h.raised.Some? then Response(h.raised) else Response(h.responseException);
      Step(h.executor, response, h.events, false)
  }

  /** What the listener did with the requests it accepted. */
  datatype Listened = Listened(executor: Executor, responses: seq<Response>, events: seq<TaskEvent>)

  /** The number of requests the listener accepts: all of them up to and
      including the first `closed`, none once the executor is stopped. */
  function Accepted(stopped: bool, reqs: seq<Request>): (n: nat)
    ensures n <= |reqs|
  {
    if stopped || |reqs| == 0 then 0
    else if reqs[0].kind == "closed" then 1
    else 1 + Accepted(stopped, reqs[1..])
  }

  /** `_listener`: answers each accepted request exactly once. */
  function Listen(ex: Executor, reqs: seq<Request>, applyError: Request -> Option<ApplyError>): (r: Listened)
    ensures |r.responses| == Accepted(ex.stopped, reqs)
    ensures r.executor.tasks <= ex.tasks
    ensures forall e :: e in r.events ==> e.id in ex.tasks
    decreases |reqs|
  {
    if ex.stopped || |reqs| == 0 then Listened(ex, [], [])
    else
      var s := Dispatch(ex, reqs[0], applyError(reqs[0]));
      assert forall e :: e in s.events ==> e.id in ex.tasks;
      if s.stop then Listened(s.executor, [s.response], s.events)
      else
        var rest := Listen(s.executor, reqs[1..], applyError);
        Listened(rest.executor, [s.response] + rest.responses, s.events + rest.events)
  }

  predicate IsTerminal(e: TaskEvent) {
    e.TaskSucceeded? || e.TaskFailed?
  }

  function TerminalCount(events: seq<TaskEvent>, id: string): nat {
    if |events| == 0 then 0
    else (if IsTerminal(events[0]) && events[0].id == id then 1 else 0) + TerminalCount(events[1..], id)
  }

  lemma {:induction false} TerminalCountAppend(a: seq<TaskEvent>, b: seq<TaskEvent>, id: string)
    ensures TerminalCount(a + b, id) == TerminalCount(a, id) + TerminalCount(b, id)
  {
    if |a| == 0 {
      assert a + b == b;
    } else {
      assert (a + b)[1..] == a[1..] + b;
      TerminalCountAppend(a[1..], b, id);
    }
  }

  lemma DispatchTerminal(ex: Executor, req: Request, applyError: Option<ApplyError>, id: string)
    ensures var s := Dispatch(ex, req, applyError);
            TerminalCount(s.events, id) + (if id in s.executor.tasks then 1 else 0)
            <= (if id in ex.tasks then 1 else 0)
  {
    var s := Dispatch(ex, req, applyError);
    if |s.events| == 1 {
      assert s.events[1..] == [];
    }
  }

  /** A task registered once is reported finished (succeeded or failed) at most
      once, however the requests about it repeat: the first terminal request
      removes it, and later ones raise. */
  lemma {:induction false} AtMostOneTerminalEvent(ex: Executor, reqs: seq<Request>,
                                                 applyError: Request -> Option<ApplyError>, id: string)
    ensures TerminalCount(Listen(ex, reqs, applyError).events, id) <= (if id in ex.tasks then 1 else 0)
    ensures TerminalCount(Listen(ex, reqs, applyError).events, id)
            + (if id in Listen(ex, reqs, applyError).executor.tasks then 1 else 0)
            <= (if id in ex.tasks then 1 else 0)
    decreases |reqs|
  {
    if !ex.stopped && |reqs| > 0 {
      var s := Dispatch(ex, reqs[0], applyError(reqs[0]));
      DispatchTerminal(ex, reqs[0], applyError(reqs[0]), id);
      if !s.stop {
        var rest := Listen(s.executor, reqs[1..], applyError);
        AtMostOneTerminalEvent(s.executor, reqs[1..], applyError, id);
        TerminalCountAppend(s.events, rest.events, id);
      }
    }
  }
}
