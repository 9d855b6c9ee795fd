/** The API tasks a workflow function puts into its task graph: operation
    tasks on a node or relationship, and workflow tasks that wrap a nested
    workflow. Task ids are random uuids and are left out; the operation's inputs
    are built by a helper that is not part of this model. */
module ApiTask {
  import opened Base
  import WorkflowContext
  import EventsHandler

  type Context = WorkflowContext.Context

  /** `type(actor).__name__.lower()`: the two model classes a task may act on,
      or any other class. */
  datatype ActorKind = NodeActor | RelationshipActor | OtherActor(className: string)

  /** What a task reads from a model operation. */
  datatype Operation = Operation(plugin: Option<string>, implementation: string)
  datatype Interface = Interface(operations: map<string, Operation>)
  datatype Actor = Actor(kind: ActorKind, name: string, interfaces: map<string, Interface>)

  /** An operation task. `plugin` and `implementation` stay unset for a stub. */
  datatype OperationTask = OperationTask(
    context: Context,
    actor: Actor,
    name: string,
    interfaceName: string,
    operationName: string,
    maxAttempts: int,
    retryInterval: nat,
    ignoreFailure: bool,
    isStub: bool,
    plugin: Option<string>,
    implementation: Option<string>)

  function TypeName(kind: ActorKind): string {
    match kind
    case NodeActor => "node"
    case RelationshipActor => "relationship"
    case OtherActor(c) => Lower(c)
  }

  /** `NAME_FORMAT = '{interface}:{operation}@{type}:{name}'`. */
  function TaskName(interfaceName: string, operationName: string, typeName: string, actorName: string): (r: string)
    ensures |r| == |interfaceName| + |operationName| + |typeName| + |actorName| + 3
    ensures r[..|interfaceName|] == interfaceName && r[|interfaceName|] == ':'
    ensures r[|r| - |actorName|..] == actorName
  {
    interfaceName + [':'] + (operationName + ['@'] + (typeName + [':'] + actorName))
  }

  /** Reads a task name back into interface, operation, actor type and actor
      name. */
  function ParseTaskName(name: string): (r: Option<(string, string, string, string)>)
    ensures r.Some? ==> ':' !in r.value.0 && '@' !in r.value.1 && ':' !in r.value.2
  {
    match SplitAt(name, ':')
    case None => None
    case Some((interfaceName, rest)) =>
      match SplitAt(rest, '@')
      case None => None
      case Some((operationName, tail)) =>
        match SplitAt(tail, ':')
        case None => None
        case Some((typeName, actorName)) => Some((interfaceName, operationName, typeName, actorName))
  }

  /** Whatever parses is the name of the parts it parses into. */
  lemma ParseTaskNameSound(name: string)
    requires ParseTaskName(name).Some?
    ensures var p := ParseTaskName(name).value;
            name == TaskName(p.0, p.1, p.2, p.3)
  {
    var (interfaceName, rest) := SplitAt(name, ':').value;
    var (operationName, tail) := SplitAt(rest, '@').value;
    var (typeName, actorName) := SplitAt(tail, ':').value;
  }

  /** The name determines the task's parts, as long as the interface name has
      no `:` and the operation name no `@` (the type name is one of the two
      lower-cased class names). */
  lemma TaskNameRoundTrip(interfaceName: string, operationName: string, typeName: string, actorName: string)
    requires ':' !in interfaceName && '@' !in operationName && ':' !in typeName
    ensures ParseTaskName(TaskName(interfaceName, operationName, typeName, actorName))
            == Some((interfaceName, operationName, typeName, actorName))
  {
    var tail := typeName + [':'] + actorName;
    var rest := operationName + ['@'] + tail;
    assert TaskName(interfaceName, operationName, typeName, actorName) == interfaceName + [':'] + rest;
    SplitAtAfter(interfaceName, ':', rest);
    SplitAtAfter(operationName, '@', tail);
    SplitAtAfter(typeName, ':', actorName);
  }

  /** Node and relationship tasks never share a name. */
  lemma NodeAndRelationshipNamesDiffer(i: string, o: string, n: string, i': string, o': string, n': string)
    requires ':' !in i && '@' !in o && ':' !in i' && '@' !in o'
    ensures TaskName(i, o, TypeName(NodeActor), n) != TaskName(i', o', TypeName(RelationshipActor), n')
  {
    assert |TypeName(NodeActor)| != |TypeName(RelationshipActor)|;
    TypesSeparateNames(i, o, TypeName(NodeActor), n, i', o', TypeName(RelationshipActor), n');
  }

  /** Task names of different actor types differ, since the type reads back. */
  lemma TypesSeparateNames(i: string, o: string, t: string, n: string, i': string, o': string, t': string, n': string)
    requires ':' !in i && '@' !in o && ':' !in t && ':' !in i' && '@' !in o' && ':' !in t' && t != t'
    ensures TaskName(i, o, t, n) != TaskName(i', o', t', n')
  {
    TaskNameRoundTrip(i, o, t, n);
    TaskNameRoundTrip(i', o', t', n');
  }

  function Resolve<T>(explicit: Option<T>, default: T): T {
    if explicit.None? then default else explicit.value
  }

  /** The operation a non-stub task runs: `actor.interfaces[i].operations[o]`. */
  function LookupOperation(actor: Actor, interfaceName: string, operationName: string): (r: Result<Operation>)
    ensures r.Ok? <==> interfaceName in actor.interfaces && operationName in actor.interfaces[interfaceName].operations
    ensures r.Ok? ==> r.value == actor.interfaces[interfaceName].operations[operationName]
  {
    if interfaceName !in actor.interfaces then Err("KeyError: " + interfaceName)
    else
      var ops := actor.interfaces[interfaceName].operations;
      if operationName !in ops then Err("KeyError: " + operationName) else Ok(ops[operationName])
  }

  /** `OperationTask.__init__`. The assertions come first; the context is
      always the thread's current one (the base constructor is called without
      `ctx`); an omitted setting (`None`) falls back to the context's task
      default, while an explicit value, `False` included, is kept. */
  function NewOperationTask(current: Option<Context>, actor: Actor, interfaceName: string, operationName: string,
                            maxAttempts: Option<int>, retryInterval: Option<nat>, ignoreFailure: Option<bool>,
                            isStub: bool): (r: Result<OperationTask>)
    ensures r.Ok? <==>
              && !actor.kind.OtherActor?
              && interfaceName != "" && operationName != ""
              && current.Some?
              && (isStub || LookupOperation(actor, interfaceName, operationName).Ok?)
    ensures (actor.kind.OtherActor? || interfaceName == "" || operationName == "") ==> r == Err("AssertionError")
    ensures r.Ok? ==>
              var t := r.value;
              && t.context == current.value
              && t.name == TaskName(interfaceName, operationName, TypeName(actor.kind), actor.name)
              && Repr(t) == t.name
              && (maxAttempts.Some? ==> t.maxAttempts == maxAttempts.value)
              && (maxAttempts.None? ==> t.maxAttempts == current.value.taskMaxAttempts)
              && (retryInterval.Some? ==> t.retryInterval == retryInterval.value)
              && (retryInterval.None? ==> t.retryInterval == current.value.taskRetryInterval)
              && (ignoreFailure.Some? ==> t.ignoreFailure == ignoreFailure.value)
              && (ignoreFailure.None? ==> t.ignoreFailure == current.value.taskIgnoreFailure)
              && t.isStub == isStub
              && (isStub ==> t.plugin.None? && t.implementation.None?)
              && (!isStub ==>
                    var op := actor.interfaces[interfaceName].operations[operationName];
                    t.plugin == op.plugin && t.implementation == Some(op.implementation))
  {
    if actor.kind.OtherActor? || interfaceName == "" || operationName == "" then Err("AssertionError")
    else
      var ctx :- WorkflowContext.Get(current);
      var name := TaskName(interfaceName, operationName, TypeName(actor.kind), actor.name);
      var task := OperationTask(ctx, actor, name, interfaceName, operationName,
                                Resolve(maxAttempts, ctx.taskMaxAttempts),
                                Resolve(retryInterval, ctx.taskRetryInterval),
                                Resolve(ignoreFailure, ctx.taskIgnoreFailure),
                                isStub, None, None);
      if isStub then Ok(task)
      else
        var op :- LookupOperation(actor, interfaceName, operationName);
        Ok(task.(plugin := op.plugin, implementation := Some(op.implementation)))
  }

  /** The name of a built task gives back its interface, operation and actor. */
  lemma OperationTaskNameParses(current: Option<Context>, actor: Actor, interfaceName: string, operationName: string,
                                maxAttempts: Option<int>, retryInterval: Option<nat>, ignoreFailure: Option<bool>,
                                isStub: bool)
    requires ':' !in interfaceName && '@' !in operationName
    requires NewOperationTask(current, actor, interfaceName, operationName, maxAttempts, retryInterval,
                              ignoreFailure, isStub).Ok?
    ensures var t := NewOperationTask(current, actor, interfaceName, operationName, maxAttempts, retryInterval,
                                      ignoreFailure, isStub).value;
            ParseTaskName(Repr(t)) == Some((interfaceName, operationName, TypeName(actor.kind), actor.name))
  {
    TaskNameRoundTrip(interfaceName, operationName, TypeName(actor.kind), actor.name);
  }

  /** `__repr__`. */
  function Repr(t: OperationTask): string {
    t.name
  }

  /** The stored task record the engine creates from an API task, before any
      signal arrives. */
  function ToStoredTask(t: OperationTask): (r: EventsHandler.Task)
    ensures r.status == EventsHandler.TaskStatus.Pending && r.retryCount == 0
    ensures r.maxAttempts == t.maxAttempts && r.retryInterval == t.retryInterval
    ensures r.ignoreFailure == t.ignoreFailure
  {
    EventsHandler.Task(EventsHandler.TaskStatus.Pending, 0, t.maxAttempts, t.retryInterval, t.ignoreFailure,
                       None, None, None, t.interfaceName, t.operationName, None)
  }

  /** A task built without settings under a context built without task
      defaults makes a single attempt: its first failure is final. */
  lemma DefaultTaskFailsOnce(id: nat, workflowName: string, actor: Actor, interfaceName: string,
                             operationName: string, isStub: bool, e: EventsHandler.TaskError, now: nat)
    requires NewOperationTask(Some(WorkflowContext.NewContext(id, workflowName, None, None, None, None)),
                              actor, interfaceName, operationName, None, None, None, isStub).Ok?
    ensures var ctx := WorkflowContext.NewContext(id, workflowName, None, None, None, None);
            var t := NewOperationTask(Some(ctx), actor, interfaceName, operationName, None, None, None, isStub).value;
            EventsHandler.TaskFailed(ToStoredTask(t), e, now).status == EventsHandler.TaskStatus.Failed
  {
    var ctx := WorkflowContext.NewContext(id, workflowName, None, None, None, None);
    var t := NewOperationTask(Some(ctx), actor, interfaceName, operationName, None, None, None, isStub).value;
    EventsHandler.DefaultAttemptsFirstFailureFinal(ToStoredTask(t), e, now);
  }

  /** `BaseTask.__init__`: the given context, else the thread's current one. */
  function TaskContext(ctx: Option<Context>, current: Option<Context>): (r: Result<Context>)
    ensures ctx.Some? ==> r == Ok(ctx.value)
    ensures ctx.None? ==> r == WorkflowContext.Get(current)
  {
    if ctx.Some? then Ok(ctx.value) else WorkflowContext.Get(current)
  }

  /** A workflow task: its context and the graph its workflow function built. */
  datatype WorkflowTask<G> = WorkflowTask(context: Context, graph: G)

  /** `WorkflowTask.__init__`: the workflow function is called with the task's
      own keyword arguments plus `ctx` set to the task's context. */
  function NewWorkflowTask<G>(ctx: Option<Context>, kwargs: map<string, string>, current: Option<Context>,
                              workflow: (Context, map<string, string>) -> G): (r: Result<WorkflowTask<G>>)
    ensures r.Ok? <==> ctx.Some? || current.Some?
    ensures r.Ok? ==> r.value.context == (if ctx.Some? then ctx.value else current.value)
    ensures r.Ok? ==> r.value.graph == workflow(r.value.context, kwargs)
  {
    var c :- TaskContext(ctx, current);
    Ok(WorkflowTask(c, workflow(c, kwargs)))
  }

  /** A workflow task created inside `push(c)` without an explicit context
      hands `c` to its workflow function. */
  lemma WorkflowTaskUsesPushedContext<G>(c: Context, kwargs: map<string, string>,
                                         workflow: (Context, map<string, string>) -> G)
    ensures NewWorkflowTask(None, kwargs, Some(c), workflow) == Ok(WorkflowTask(c, workflow(c, kwargs)))
  {
  }
}
