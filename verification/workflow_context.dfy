/** The workflow context's task defaults and the thread-current context: a
    per-thread slot that `push` sets for the duration of a block and restores
    afterwards, whether the block finishes or raises. One thread is modelled;
    the slot is a value threaded through a block program. */
module WorkflowContext {
  import opened Base

  /** The parts of a workflow context that tasks read. `id` stands for the
      object's identity. */
  datatype Context = Context(
    id: nat,
    workflowName: string,
    parameters: map<string, string>,
    taskMaxAttempts: int,
    taskRetryInterval: nat,
    taskIgnoreFailure: bool)

  /** `WorkflowContext.__init__`; `None` stands for an omitted argument. */
  function NewContext(id: nat, workflowName: string, parameters: Option<map<string, string>>,
                      maxAttempts: Option<int>, retryInterval: Option<nat>, ignoreFailure: Option<bool>): (c: Context)
    ensures c.id == id && c.workflowName == workflowName
    ensures c.parameters == parameters.GetOr(map[])
    ensures c.taskMaxAttempts == maxAttempts.GetOr(1)
    ensures c.taskRetryInterval == retryInterval.GetOr(0)
    ensures c.taskIgnoreFailure == ignoreFailure.GetOr(false)
  {
    Context(id, workflowName,
            if parameters.Some? && |parameters.value| > 0 then parameters.value else map[],
            maxAttempts.GetOr(1), retryInterval.GetOr(0), ignoreFailure.GetOr(false))
  }

  const NoContext: string := "No context was set"

  /** `_CurrentContext.get`. */
  function Get(current: Option<Context>): (r: Result<Context>)
    ensures r.Ok? <==> current.Some?
    ensures r.Ok? ==> r.value == current.value
    ensures r.Err? ==> r.msg == NoContext
  {
    match current
    case Some(c) => Ok(c)
    case None => Err(NoContext)
  }

  /** A block of code run on the thread: reading the current context, raising
      an exception, or entering `with current.push(c):` around a nested block. */
  datatype Stmt = GetCurrent | Raise | Push(ctx: Context, body: Block)
  datatype Block = Block(stmts: seq<Stmt>)

  /** The slot after a block, what each `get` returned, and whether an
      exception escaped the block. */
  datatype Outcome = Outcome(current: Option<Context>, seen: seq<Result<Context>>, raised: bool)

  /** Runs statements `k..` of `b`. A failed `get` raises; an exception ends the
      block; `push` saves the slot, sets it, and sets the saved value back in
      its `finally`. */
  function Run(current: Option<Context>, b: Block, k: nat): (o: Outcome)
    requires k <= |b.stmts|
    ensures o.current == current
    decreases b, |b.stmts| - k
  {
    if k == |b.stmts| then Outcome(current, [], false)
    else
      var first: Outcome :=
        match b.stmts[k]
        case GetCurrent =>
          var r := Get(current);
          Outcome(current, [r], r.Err?)
        case Raise => Outcome(current, [], true)
        case Push(c, body) =>
          var prev := current;
          var inner := Run(Some(c), body, 0);
          Outcome(prev, inner.seen, inner.raised);
      if first.raised then first
      else
        var rest := Run(first.current, b, k + 1);
        Outcome(rest.current, first.seen + rest.seen, rest.raised)
  }

  /** Reference semantics with an explicit stack of pushed contexts: `get`
      sees the innermost push, and leaving a push pops it. */
  function RunStack(stack: seq<Context>, b: Block, k: nat): (o: (seq<Result<Context>>, bool))
    requires k <= |b.stmts|
    decreases b, |b.stmts| - k
  {
    if k == |b.stmts| then ([], false)
    else
      var first: (seq<Result<Context>>, bool) :=
        match b.stmts[k]
        case GetCurrent =>
          if |stack| == 0 then ([Err(NoContext)], true) else ([Ok(stack[|stack| - 1])], false)
        case Raise => ([], true)
        case Push(c, body) => RunStack(stack + [c], body, 0);
      if first.1 then first
      else
        var rest := RunStack(stack, b, k + 1);
        (first.0 + rest.0, rest.1)
  }

  function Top(stack: seq<Context>): Option<Context> {
    if |stack| == 0 then None else Some(stack[|stack| - 1])
  }

  /** Save-and-restore in a single slot behaves as a stack: every `get`
      returns the innermost enclosing push, and exceptions propagate alike. */
  lemma {:induction false} RunIsStack(stack: seq<Context>, b: Block, k: nat)
    requires k <= |b.stmts|
    ensures Run(Top(stack), b, k).seen == RunStack(stack, b, k).0
    ensures Run(Top(stack), b, k).raised == RunStack(stack, b, k).1
    decreases b, |b.stmts| - k
  {
    if k < |b.stmts| {
      match b.stmts[k] {
        case GetCurrent =>
        case Raise =>
        case Push(c, body) =>
          assert Top(stack + [c]) == Some(c);
          RunIsStack(stack + [c], body, 0);
      }
      RunIsStack(stack, b, k + 1);
    }
  }

  /** Inside `push(c)`, `get` returns `c`. */
  lemma GetInsidePush(current: Option<Context>, c: Context)
    ensures Run(current, Block([Push(c, Block([GetCurrent]))]), 0) == Outcome(current, [Ok(c)], false)
  {
    var inner := Block([GetCurrent]);
    assert Run(Some(c), inner, 1) == Outcome(Some(c), [], false);
    assert Run(Some(c), inner, 0) == Outcome(Some(c), [Ok(c)], false);
    var outer := Block([Push(c, inner)]);
    assert Run(current, outer, 1) == Outcome(current, [], false);
  }

  /** Leaving a push by an exception still restores the previous context, and
      the exception propagates. */
  lemma RaiseInsidePushRestores(current: Option<Context>, c: Context, body: seq<Stmt>)
    ensures var o := Run(current, Block([Push(c, Block([Raise] + body))]), 0);
            o.current == current && o.raised && o.seen == []
  {
    var inner := Block([Raise] + body);
    assert inner.stmts[0] == Raise;
    assert Run(Some(c), inner, 0) == Outcome(Some(c), [], true);
  }

  /** Nested pushes unwind last-in first-out: after an inner push that did not
      raise, the outer block sees its own context again. */
  lemma NestedPushUnwinds(current: Option<Context>, a: Context, b: Context, innerBody: Block)
    requires !Run(Some(b), innerBody, 0).raised
    ensures var outer := Block([Push(a, Block([Push(b, innerBody), GetCurrent]))]);
            var o := Run(current, outer, 0);
            && o.current == current && !o.raised
            && o.seen == Run(Some(b), innerBody, 0).seen + [Ok(a)]
  {
    var middle := Block([Push(b, innerBody), GetCurrent]);
    var seenInner := Run(Some(b), innerBody, 0).seen;
    assert Run(Some(a), middle, 2) == Outcome(Some(a), [], false);
    assert Run(Some(a), middle, 1) == Outcome(Some(a), [Ok(a)], false);
    assert Run(Some(a), middle, 0) == Outcome(Some(a), seenInner + [Ok(a)], false);
    var outer := Block([Push(a, middle)]);
    assert Run(current, outer, 1) == Outcome(current, [], false);
    assert seenInner + [Ok(a)] + [] == seenInner + [Ok(a)];
  }
}
