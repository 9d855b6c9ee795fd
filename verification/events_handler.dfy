/** The storage event handlers of the workflow engine: how task and execution
    records move between statuses when the engine signals start, success,
    failure and cancellation. The wall clock is an abstract natural number `now`
    and `timedelta(seconds=k)` is `+ k`. */
module EventsHandler {
  import opened Base

  /** Task statuses. PENDING is the status a task record is created with. */
  datatype TaskStatus = Pending | Sent | Started | Retrying | Failed | Success

  /** The `max_attempts` value that means "retry forever". */
  const InfiniteRetries: int := -1

  /** The node a task operates on; `state` is its TOSCA lifecycle state. */
  datatype Node = Node(id: nat, state: string)

  /** The parts of a task record the handlers read or write. `node` is the task's
      node, absent for relationship tasks and for tasks without a stored model. */
  datatype Task = Task(
    status: TaskStatus,
    retryCount: nat,
    maxAttempts: int,
    retryInterval: nat,
    ignoreFailure: bool,
    startedAt: Option<nat>,
    endedAt: Option<nat>,
    dueAt: Option<nat>,
    interfaceName: string,
    operationName: string,
    node: Option<Node>)

  /** What a task failed with: an abort request, a retry request carrying an
      optional interval override, or any other exception. */
  datatype TaskError = Abort | RetryRequest(retryInterval: Option<nat>) | OtherError(message: string)

  /** The interface names that identify the TOSCA normative node lifecycle
      interface (section 5.7.4 of the TOSCA Simple Profile in YAML v1.0). */
  predicate IsLifecycleInterface(name: string) {
    name == "Standard" || name == "tosca.interfaces.node.lifecycle.Standard"
  }

  /** `_task_sent`: only the status changes. */
  function TaskSent(t: Task): (r: Task)
    ensures r.status == TaskStatus.Sent
    ensures r.(status := t.status) == t
  {
    t.(status := TaskStatus.Sent)
  }

  /** `_task_started`: STARTED, stamped with the start time. */
  function TaskStarted(t: Task, now: nat): (r: Task)
    ensures r.status == TaskStatus.Started && r.startedAt == Some(now)
    ensures r.(status := t.status, startedAt := t.startedAt) == t
  {
    t.(status := TaskStatus.Started, startedAt := Some(now))
  }

  predicate HasRetryBudget(t: Task) {
    t.retryCount < t.maxAttempts - 1 || t.maxAttempts == InfiniteRetries
  }

  predicate ShouldRetry(t: Task, e: TaskError) {
    !e.Abort? && HasRetryBudget(t) && !t.ignoreFailure
  }

  /** The interval a retry waits: the retry request's own interval when it gives
      one, the task's otherwise. */
  function RetryDelay(t: Task, e: TaskError): (d: nat)
    ensures e.RetryRequest? && e.retryInterval.Some? ==> d == e.retryInterval.value
    ensures !(e.RetryRequest? && e.retryInterval.Some?) ==> d == t.retryInterval
  {
    if e.RetryRequest? then e.retryInterval.GetOr(t.retryInterval) else t.retryInterval
  }

  /** `_task_failed`: either schedule a retry or mark the task failed for good. */
  function TaskFailed(t: Task, e: TaskError, now: nat): (r: Task)
    ensures r.status == TaskStatus.Retrying || r.status == TaskStatus.Failed
    ensures r.status == TaskStatus.Retrying <==>
              (!e.Abort?
               && (t.retryCount < t.maxAttempts - 1 || t.maxAttempts == InfiniteRetries)
               && !t.ignoreFailure)
    ensures r.status == TaskStatus.Retrying ==>
              && r.retryCount == t.retryCount + 1
              && r.dueAt == Some(now + RetryDelay(t, e))
              && r.(status := t.status, retryCount := t.retryCount, dueAt := t.dueAt) == t
    ensures r.status == TaskStatus.Failed ==>
              && r.endedAt == Some(now)
              && r.(status := t.status, endedAt := t.endedAt) == t
  {
    if ShouldRetry(t, e) then
      t.(status := TaskStatus.Retrying, retryCount := t.retryCount + 1, dueAt := Some(now + RetryDelay(t, e)))
    else
      t.(status := TaskStatus.Failed, endedAt := Some(now))
  }

  /** `_update_node_state_if_necessary`: the node written back to storage, if any.
      `determine` is the node's `determine_state(op_name, is_transitional)`; an
      empty string stands for a falsy state. */
  function NodeStateUpdate(t: Task, transitional: bool, determine: (string, bool) -> string): (r: Option<Node>)
    ensures r.Some? <==>
              t.node.Some? && IsLifecycleInterface(t.interfaceName)
              && determine(t.operationName, transitional) != ""
    ensures r.Some? ==>
              r.value == t.node.value.(state := determine(t.operationName, transitional))
  {
    if t.node.Some? && IsLifecycleInterface(t.interfaceName) then
      var state := determine(t.operationName, transitional);
      if state != "" then Some(t.node.value.(state := state)) else None
    else
      None
  }

  /** Replaces the task's node by the updated one when the hook wrote one. */
  function WithNodeUpdate(t: Task, transitional: bool, determine: (string, bool) -> string): (r: Task)
    ensures r.(node := t.node) == t
    ensures r.node.Some? <==> t.node.Some?
    ensures NodeStateUpdate(t, transitional, determine).None? ==> r == t
  {
    match NodeStateUpdate(t, transitional, determine)
    case Some(n) => t.(node := Some(n))
    case None => t
  }

  /** Both receivers of the start signal: `_task_started` and `_node_task_started`. */
  function OnStartSignal(t: Task, now: nat, determine: (string, bool) -> string): (r: Task)
    ensures r.status == TaskStatus.Started && r.startedAt == Some(now)
    ensures r.retryCount == t.retryCount && r.endedAt == t.endedAt && r.dueAt == t.dueAt
    ensures r.node == match NodeStateUpdate(t, true, determine)
                      case Some(n) => Some(n)
                      case None => t.node
    ensures r.(status := t.status, startedAt := t.startedAt, node := t.node) == t
  {
    WithNodeUpdate(TaskStarted(t, now), true, determine)
  }

  /** `_task_succeeded`: SUCCESS, stamped with the end time, then the node hook
      with a non-transitional state. */
  function TaskSucceeded(t: Task, now: nat, determine: (string, bool) -> string): (r: Task)
    ensures r.status == TaskStatus.Success && r.endedAt == Some(now)
    ensures r.retryCount == t.retryCount && r.startedAt == t.startedAt && r.dueAt == t.dueAt
    ensures !IsLifecycleInterface(t.interfaceName) ==> r == t.(status := TaskStatus.Success, endedAt := Some(now))
    ensures r.node == match NodeStateUpdate(t, false, determine)
                      case Some(n) => Some(n)
                      case None => t.node
    ensures r.(status := t.status, endedAt := t.endedAt, node := t.node) == t
  {
    WithNodeUpdate(t.(status := TaskStatus.Success, endedAt := Some(now)), false, determine)
  }

  /** Applies one failure per element of `es`, in order. */
  function FailAll(t: Task, es: seq<TaskError>, now: nat): Task
    decreases |es|
  {
    if |es| == 0 then t else FailAll(TaskFailed(t, es[0], now), es[1..], now)
  }

  predicate WithinRetryBound(t: Task) {
    t.maxAttempts >= 1 && t.retryCount <= t.maxAttempts - 1
  }

  /** One failure keeps a finite task within its retry bound. */
  lemma FailedKeepsRetryBound(t: Task, e: TaskError, now: nat)
    requires WithinRetryBound(t)
    ensures WithinRetryBound(TaskFailed(t, e, now))
  {
  }

  /** However many failures arrive, a task with finite `max_attempts >= 1` never
      counts more than `max_attempts - 1` retries. */
  lemma {:induction false} RetryCountBounded(t: Task, es: seq<TaskError>, now: nat)
    requires WithinRetryBound(t)
    ensures FailAll(t, es, now).retryCount <= t.maxAttempts - 1
    decreases |es|
  {
    if |es| > 0 {
      FailedKeepsRetryBound(t, es[0], now);
      RetryCountBounded(TaskFailed(t, es[0], now), es[1..], now);
    }
  }

  /** With the default `max_attempts` of 1 the first failure is final. */
  lemma DefaultAttemptsFirstFailureFinal(t: Task, e: TaskError, now: nat)
    requires t.maxAttempts == 1 && t.retryCount == 0
    ensures TaskFailed(t, e, now).status == TaskStatus.Failed
    ensures TaskFailed(t, e, now).retryCount == 0
  {
  }

  /** A task that does not ignore failures and keeps failing with ordinary errors
      is retried exactly `max_attempts - 1` times and then fails. */
  lemma {:induction false} AttemptsExhausted(t: Task, n: nat, e: TaskError, now: nat)
    requires t.maxAttempts >= 1 && !t.ignoreFailure && !e.Abort?
    requires t.retryCount + n == t.maxAttempts - 1
    ensures FailAll(t, seq(n + 1, _ => e), now).status == TaskStatus.Failed
    ensures FailAll(t, seq(n + 1, _ => e), now).retryCount == t.maxAttempts - 1
    decreases n
  {
    var es := seq(n + 1, _ => e);
    if n == 0 {
      assert es[1..] == [];
    } else {
      var t' := TaskFailed(t, e, now);
      assert t'.status == TaskStatus.Retrying;
      assert es[1..] == seq(n, _ => e);
      AttemptsExhausted(t', n - 1, e, now);
    }
  }

  // ---------------------------------------------------------------- executions

  /** Execution statuses. */
  datatype ExecStatus = Pending | Started | Failed | Succeeded | Cancelling | Cancelled

  datatype Execution = Execution(
    status: ExecStatus,
    startedAt: Option<nat>,
    endedAt: Option<nat>,
    error: Option<string>)

  predicate IsEnded(s: ExecStatus) {
    s == ExecStatus.Succeeded || s == ExecStatus.Failed
  }

  /** `_workflow_started`: a cancellation in progress or done wins over the start. */
  function WorkflowStarted(x: Execution, now: nat): (r: Execution)
    ensures x.status in {ExecStatus.Cancelling, ExecStatus.Cancelled} ==> r == x
    ensures x.status !in {ExecStatus.Cancelling, ExecStatus.Cancelled} ==>
              r == x.(status := ExecStatus.Started, startedAt := Some(now))
  {
    if x.status == ExecStatus.Cancelling || x.status == ExecStatus.Cancelled then x
    else x.(status := ExecStatus.Started, startedAt := Some(now))
  }

  /** `_workflow_failed`: records the exception text. */
  function WorkflowFailed(x: Execution, exceptionText: string, now: nat): (r: Execution)
    ensures r.status == ExecStatus.Failed && r.error == Some(exceptionText) && r.endedAt == Some(now)
    ensures r.startedAt == x.startedAt
  {
    x.(error := Some(exceptionText), status := ExecStatus.Failed, endedAt := Some(now))
  }

  /** `_workflow_succeeded`. */
  function WorkflowSucceeded(x: Execution, now: nat): (r: Execution)
    ensures r.status == ExecStatus.Succeeded && r.endedAt == Some(now)
    ensures r.startedAt == x.startedAt && r.error == x.error
  {
    x.(status := ExecStatus.Succeeded, endedAt := Some(now))
  }

  /** A cancel handler's effect: the execution afterwards, and the status it
      reports in an info log line when the execution had already ended. */
  datatype CancelOutcome = CancelOutcome(execution: Execution, endedBefore: Option<ExecStatus>)

  /** `_workflow_cancelled`. */
  function WorkflowCancelled(x: Execution, now: nat): (r: CancelOutcome)
    ensures x.status == ExecStatus.Cancelled ==> r == CancelOutcome(x, None)
    ensures IsEnded(x.status) ==> r == CancelOutcome(x, Some(x.status))
    ensures x.status != ExecStatus.Cancelled && !IsEnded(x.status) ==>
              r == CancelOutcome(x.(status := ExecStatus.Cancelled, endedAt := Some(now)), None)
  {
    if x.status == ExecStatus.Cancelled then CancelOutcome(x, None)
    else if IsEnded(x.status) then CancelOutcome(x, Some(x.status))
    else CancelOutcome(x.(status := ExecStatus.Cancelled, endedAt := Some(now)), None)
  }

  /** `_workflow_cancelling`: a pending execution is cancelled outright. */
  function WorkflowCancelling(x: Execution, now: nat): (r: CancelOutcome)
    ensures x.status == ExecStatus.Pending ==> r.execution.status == ExecStatus.Cancelled && r.execution.endedAt == Some(now)
    ensures IsEnded(x.status) ==> r == CancelOutcome(x, Some(x.status))
    ensures x.status != ExecStatus.Pending && !IsEnded(x.status) ==>
              r == CancelOutcome(x.(status := ExecStatus.Cancelling), None)
  {
    if x.status == ExecStatus.Pending then WorkflowCancelled(x, now)
    else if IsEnded(x.status) then CancelOutcome(x, Some(x.status))
    else CancelOutcome(x.(status := ExecStatus.Cancelling), None)
  }

  /** Cancelling twice is cancelling once, whenever the second signal arrives. */
  lemma CancelledIdempotent(x: Execution, now: nat, later: nat)
    ensures WorkflowCancelled(WorkflowCancelled(x, now).execution, later).execution
            == WorkflowCancelled(x, now).execution
  {
  }

  /** Once cancelling or cancelled, a late start signal changes nothing. */
  lemma CancelWinsOverStart(x: Execution, now: nat, later: nat)
    ensures var c := WorkflowCancelling(x, now).execution;
            !IsEnded(x.status) ==> WorkflowStarted(c, later) == c
    ensures var c := WorkflowCancelled(x, now).execution;
            !IsEnded(x.status) ==> WorkflowStarted(c, later) == c
  {
  }

  /** `_workflow_cancelling` has no guard for CANCELLED: a cancelling signal that
      arrives after the execution was cancelled moves it back to CANCELLING. */
  lemma CancellingAfterCancelled(x: Execution, now: nat)
    requires x.status == ExecStatus.Cancelled
    ensures WorkflowCancelling(x, now).execution.status == ExecStatus.Cancelling
  {
  }

  /** Ended executions are left alone by both cancel handlers. */
  lemma EndedIsFinalForCancel(x: Execution, now: nat)
    requires IsEnded(x.status)
    ensures WorkflowCancelled(x, now).execution == x
    ensures WorkflowCancelling(x, now).execution == x
  {
  }

  /** The head of the info line logged when a cancel request arrives after the
      execution ended. */
  function CancelNoticeHead(workflowName: string, statusText: string): string
  {
    "'" + workflowName + "' workflow execution " + statusText + " before the cancel "
  }

  /** The second of the two adjacent string literals at
      events_handler.py:155-156. */
  const CancelNoticeTail: string := "was fully processed"

  /** The info line as the two adjacent string literals concatenate it: the
      first ends in "request" and the second follows without a space. */
  function CancelNoticeAsWritten(workflowName: string, statusText: string): (s: string)
    ensures s == CancelNoticeHead(workflowName, statusText) + "requestwas fully processed"
  {
    CancelNoticeHead(workflowName, statusText) + "request" + CancelNoticeTail
  }

  /** The line with a separating space between the two literals. */
  function CancelNotice(workflowName: string, statusText: string): (s: string)
    ensures s == CancelNoticeHead(workflowName, statusText) + "request was fully processed"
  {
    var first := CancelNoticeHead(workflowName, statusText) + "request";
    first + [' '] + CancelNoticeTail
  }

  /** The two lines differ exactly in the missing space: the corrected line is
      the as-written one with a space inserted after "request". */
  lemma CancelNoticeMissingSpace(workflowName: string, statusText: string)
    ensures var h := CancelNoticeHead(workflowName, statusText);
            && CancelNoticeAsWritten(workflowName, statusText)[|h| + 7] == 'w'
            && CancelNotice(workflowName, statusText)[|h| + 7] == ' '
            && CancelNotice(workflowName, statusText)[..|h| + 7]
               == CancelNoticeAsWritten(workflowName, statusText)[..|h| + 7]
    ensures var h := CancelNoticeHead(workflowName, statusText);
            var a := CancelNoticeAsWritten(workflowName, statusText);
            CancelNotice(workflowName, statusText) == a[..|h| + 7] + " " + a[|h| + 7..]
  {
    var h := CancelNoticeHead(workflowName, statusText);
    var a := CancelNoticeAsWritten(workflowName, statusText);
    var c := CancelNotice(workflowName, statusText);
    assert a[..|h| + 7] == h + "request";
    assert a[|h| + 7..] == CancelNoticeTail;
    assert c[..|h| + 7] == h + "request";
  }
}
