/** Translation of a user task graph into the execution graph: every graph is
    framed by a start and an end marker, every operation task hangs off its
    dependencies (or off the start marker), and sub-workflows are expanded in
    place between their own markers. */
module Translation {
  import opened Base

  /** A task of the user's graph. A workflow task's identity is its graph's id. */
  datatype ApiTask =
    | OperationTask(id: string, isStub: bool)
    | WorkflowTask(graph: TaskGraph)
    | OtherTask(id: string)

  /** A user task graph: `tasks` in the order `topological_order(reverse=True)`
      yields them, and `deps[i]` the positions of the tasks `tasks[i]` depends on. */
  datatype TaskGraph = TaskGraph(id: string, tasks: seq<ApiTask>, deps: seq<seq<nat>>)

  /** The kinds of node the execution graph holds. An operation node carries
      the executor it was built with, none for a stub. */
  datatype NodeKind =
    | StartWorkflow
    | EndWorkflow
    | StartSubWorkflow
    | EndSubWorkflow
    | Operation(executor: Option<string>)

  datatype ExecNode = ExecNode(id: string, kind: NodeKind)

  datatype Edge = Edge(from: string, to: string)

  /** The nodes and edges one translation step adds, in the order it adds them. */
  datatype Fragment = Fragment(nodes: seq<ExecNode>, edges: seq<Edge>)

  function TaskId(t: ApiTask): (id: string)
    ensures t.WorkflowTask? ==> id == t.graph.id
    ensures !t.WorkflowTask? ==> id == t.id
  {
    match t
    case OperationTask(id, _) => id
    case WorkflowTask(g) => g.id
    case OtherTask(id) => id
  }

  /** `_start_graph_suffix`. */
  function StartId(id: string): (s: string)
    ensures s == id + "-Start"
  {
    id + "-Start"
  }

  /** `_end_graph_suffix`. */
  function EndId(id: string): (s: string)
    ensures s == id + "-End"
  {
    id + "-End"
  }

  /** The marker ids of one graph never collide: they differ in their last
      character. */
  lemma MarkersDistinct(a: string, b: string)
    ensures StartId(a) != EndId(b)
  {
    var s, e := StartId(a), EndId(b);
    assert s[|s| - 1] == 't' && e[|e| - 1] == 'd';
  }

  /** Every dependency position of every (sub-)graph names a task of it. The
      model does not require the task order to put dependencies first: an
      edge may name a node that a later step adds, where the graph library
      would raise a `KeyError` on the missing node. */
  predicate ValidGraph(g: TaskGraph)
    decreases g
  {
    && |g.deps| == |g.tasks|
    && (forall i, k :: 0 <= i < |g.deps| && 0 <= k < |g.deps[i]| ==> g.deps[i][k] < |g.tasks|)
    && (forall i :: 0 <= i < |g.tasks| ==>
          g.tasks[i].WorkflowTask? ==> (assert g.tasks[i] in g.tasks; ValidGraph(g.tasks[i].graph)))
  }

  /** Some task, at any depth of sub-workflow, is neither an operation nor a
      workflow task. */
  predicate HasOtherTask(g: TaskGraph)
    decreases g
  {
    exists i :: 0 <= i < |g.tasks| &&
      (g.tasks[i].OtherTask? ||
       (g.tasks[i].WorkflowTask? && (assert g.tasks[i] in g.tasks; HasOtherTask(g.tasks[i].graph))))
  }

  /** `task_graph.get_dependencies(tasks[i])`. */
  function DepsOf(g: TaskGraph, i: nat): (r: seq<ApiTask>)
    requires ValidGraph(g) && i < |g.tasks|
    ensures |r| == |g.deps[i]|
    ensures forall k :: 0 <= k < |r| ==> r[k] == g.tasks[g.deps[i][k]]
  {
    seq(|g.deps[i]|, k requires 0 <= k < |g.deps[i]| => g.tasks[g.deps[i][k]])
  }

  /** The tasks nothing depends on, in task order: `_get_non_dependency_tasks`. */
  function NonDependencyTasks(g: TaskGraph): (r: seq<ApiTask>)
    ensures forall t :: t in r <==>
              exists i :: 0 <= i < |g.tasks| && g.tasks[i] == t && IsSink(g, i)
  {
    NonDependencyFrom(g, 0)
  }

  predicate IsSink(g: TaskGraph, i: nat) {
    forall k :: 0 <= k < |g.deps| ==> i !in g.deps[k]
  }

  function NonDependencyFrom(g: TaskGraph, k: nat): (r: seq<ApiTask>)
    requires k <= |g.tasks|
    ensures forall t :: t in r <==>
              exists i :: k <= i < |g.tasks| && g.tasks[i] == t && IsSink(g, i)
    decreases |g.tasks| - k
  {
    if k == |g.tasks| then []
    else if IsSink(g, k) then [g.tasks[k]] + NonDependencyFrom(g, k + 1)
    else NonDependencyFrom(g, k + 1)
  }

  /** The execution node standing for a dependency: the operation itself, or the
      end marker of a sub-workflow. */
  function ExecIdOf(t: ApiTask): (id: string)
    ensures t.OperationTask? ==> id == t.id
    ensures !t.OperationTask? ==> id == EndId(TaskId(t))
  {
    if t.OperationTask? then t.id else EndId(TaskId(t))
  }

  /** `_get_tasks_from_dependencies(..., default)`: the ids of the dependencies'
      execution nodes, or the default when there are none. */
  function ResolveDeps(deps: seq<ApiTask>, default: seq<string>): (r: seq<string>)
    ensures |deps| == 0 ==> r == default
    ensures |deps| > 0 ==> |r| == |deps| && forall k :: 0 <= k < |deps| ==> r[k] == ExecIdOf(deps[k])
  {
    if |deps| == 0 then default else seq(|deps|, k requires 0 <= k < |deps| => ExecIdOf(deps[k]))
  }

  /** `_add_task_and_dependencies`: one edge from each dependency into `id`. */
  function EdgesInto(deps: seq<string>, id: string): (r: seq<Edge>)
    ensures |r| == |deps|
    ensures forall k :: 0 <= k < |deps| ==> r[k] == Edge(deps[k], id)
  {
    seq(|deps|, k requires 0 <= k < |deps| => Edge(deps[k], id))
  }

  function OperationKind(isStub: bool, executor: string): NodeKind {
    Operation(if isStub then None else Some(executor))
  }

  /** What the translation of task `i` of `g` must have put into `f`. */
  predicate TaskTranslated(g: TaskGraph, i: nat, f: Fragment, executor: string)
    requires ValidGraph(g) && i < |g.tasks|
  {
    var deps := ResolveDeps(DepsOf(g, i), [StartId(g.id)]);
    match g.tasks[i]
    case OperationTask(id, stub) =>
      && ExecNode(id, OperationKind(stub, executor)) in f.nodes
      && forall d :: d in deps ==> Edge(d, id) in f.edges
    case WorkflowTask(sg) =>
      && ExecNode(StartId(sg.id), StartSubWorkflow) in f.nodes
      && ExecNode(EndId(sg.id), EndSubWorkflow) in f.nodes
      && forall d :: d in deps ==> Edge(d, StartId(sg.id)) in f.edges
    case OtherTask(_) => false
  }

  /** `build_execution_graph`: the nodes and edges added to the execution graph
      for `g`, framed by start and end markers (the sub-workflow kinds when
      `sub`), the start marker depending on `dependsOn`. */
  function Build(g: TaskGraph, executor: string, sub: bool, dependsOn: seq<string>): (r: Result<Fragment>)
    requires ValidGraph(g)
    ensures r.Err? <==> HasOtherTask(g)
    ensures r.Ok? ==>
              var f := r.value;
              var endDeps := ResolveDeps(NonDependencyTasks(g), [StartId(g.id)]);
              && |f.nodes| >= 2
              && f.nodes[0] == ExecNode(StartId(g.id), if sub then StartSubWorkflow else StartWorkflow)
              && f.nodes[|f.nodes| - 1] == ExecNode(EndId(g.id), if sub then EndSubWorkflow else EndWorkflow)
              && |f.edges| >= |dependsOn| + |endDeps|
              && f.edges[..|dependsOn|] == EdgesInto(dependsOn, StartId(g.id))
              && f.edges[|f.edges| - |endDeps|..] == EdgesInto(endDeps, EndId(g.id))
              && forall i :: 0 <= i < |g.tasks| ==> TaskTranslated(g, i, f, executor)
    decreases g, 1
  {
    var start := ExecNode(StartId(g.id), if sub then StartSubWorkflow else StartWorkflow);
    var body := BuildTasks(g, 0, executor);
    HasOtherTaskUnfold(g);
    if body.Err? then Err(body.msg)
    else
      var endDeps := ResolveDeps(NonDependencyTasks(g), [StartId(g.id)]);
      var end := ExecNode(EndId(g.id), if sub then EndSubWorkflow else EndWorkflow);
      var f := Fragment([start] + body.value.nodes + [end],
                        EdgesInto(dependsOn, start.id) + body.value.edges + EdgesInto(endDeps, end.id));
      FragmentKeepsTranslated(g, body.value, f, executor);
      Ok(f)
  }

  /** The loop over `topological_order(reverse=True)` from position `k` on. */
  function BuildTasks(g: TaskGraph, k: nat, executor: string): (r: Result<Fragment>)
    requires ValidGraph(g) && k <= |g.tasks|
    ensures r.Err? <==> exists i :: k <= i < |g.tasks| && IsUntranslatable(g, i)
    ensures r.Ok? ==> forall i :: k <= i < |g.tasks| ==> TaskTranslated(g, i, r.value, executor)
    decreases g, 0, |g.tasks| - k
  {
    if k == |g.tasks| then Ok(Fragment([], []))
    else
      var t := g.tasks[k];
      assert t in g.tasks;
      var deps := ResolveDeps(DepsOf(g, k), [StartId(g.id)]);
      var head :=
        match t
        case OperationTask(id, stub) =>
          Ok(Fragment([ExecNode(id, OperationKind(stub, executor))], EdgesInto(deps, id)))
        case WorkflowTask(sg) => Build(sg, executor, true, deps)
        case OtherTask(_) => Err("Undefined state");
      if head.Err? then
        assert IsUntranslatable(g, k);
        Err(head.msg)
      else
        var rest := BuildTasks(g, k + 1, executor);
        if rest.Err? then Err(rest.msg)
        else
          ConcatTranslated(g, k, head.value, rest.value, executor);
          Ok(Fragment(head.value.nodes + rest.value.nodes, head.value.edges + rest.value.edges))
  }

  predicate IsUntranslatable(g: TaskGraph, i: nat)
    requires ValidGraph(g) && i < |g.tasks|
  {
    g.tasks[i].OtherTask? ||
    (g.tasks[i].WorkflowTask? && (assert g.tasks[i] in g.tasks; HasOtherTask(g.tasks[i].graph)))
  }

  lemma HasOtherTaskUnfold(g: TaskGraph)
    requires ValidGraph(g)
    ensures HasOtherTask(g) <==> exists i :: 0 <= i < |g.tasks| && IsUntranslatable(g, i)
  {
    if HasOtherTask(g) {
      var i :| 0 <= i < |g.tasks| &&
        (g.tasks[i].OtherTask? || (g.tasks[i].WorkflowTask? && HasOtherTask(g.tasks[i].graph)));
      assert IsUntranslatable(g, i);
    }
    if exists i :: 0 <= i < |g.tasks| && IsUntranslatable(g, i) {
      var i :| 0 <= i < |g.tasks| && IsUntranslatable(g, i);
      assert g.tasks[i].OtherTask? || (g.tasks[i].WorkflowTask? && HasOtherTask(g.tasks[i].graph));
    }
  }

  /** Adding nodes and edges never undoes a translated task. */
  lemma TranslatedMonotone(g: TaskGraph, i: nat, f: Fragment, f': Fragment, executor: string)
    requires ValidGraph(g) && i < |g.tasks|
    requires TaskTranslated(g, i, f, executor)
    requires forall n :: n in f.nodes ==> n in f'.nodes
    requires forall e :: e in f.edges ==> e in f'.edges
    ensures TaskTranslated(g, i, f', executor)
  {
  }

  /** The fragment built for task `k` followed by the one built for the tasks
      after it translates every task from `k` on. */
  lemma ConcatTranslated(g: TaskGraph, k: nat, head: Fragment, rest: Fragment, executor: string)
    requires ValidGraph(g) && k < |g.tasks|
    requires !g.tasks[k].OtherTask?
    requires g.tasks[k].OperationTask? ==>
               head == Fragment([ExecNode(g.tasks[k].id, OperationKind(g.tasks[k].isStub, executor))],
                                EdgesInto(ResolveDeps(DepsOf(g, k), [StartId(g.id)]), g.tasks[k].id))
    requires g.tasks[k].WorkflowTask? ==>
               var sg := g.tasks[k].graph;
               var deps := ResolveDeps(DepsOf(g, k), [StartId(g.id)]);
               && |head.nodes| >= 2
               && head.nodes[0] == ExecNode(StartId(sg.id), StartSubWorkflow)
               && head.nodes[|head.nodes| - 1] == ExecNode(EndId(sg.id), EndSubWorkflow)
               && |head.edges| >= |deps|
               && head.edges[..|deps|] == EdgesInto(deps, StartId(sg.id))
    requires forall i :: k + 1 <= i < |g.tasks| ==> TaskTranslated(g, i, rest, executor)
    ensures forall i :: k <= i < |g.tasks| ==>
              TaskTranslated(g, i, Fragment(head.nodes + rest.nodes, head.edges + rest.edges), executor)
  {
    var f := Fragment(head.nodes + rest.nodes, head.edges + rest.edges);
    HeadTranslated(g, k, head, f, executor);
    forall i | k + 1 <= i < |g.tasks|
      ensures TaskTranslated(g, i, f, executor)
    {
      TranslatedMonotone(g, i, rest, f, executor);
    }
  }

  lemma HeadTranslated(g: TaskGraph, k: nat, head: Fragment, f: Fragment, executor: string)
    requires ValidGraph(g) && k < |g.tasks|
    requires !g.tasks[k].OtherTask?
    requires g.tasks[k].OperationTask? ==>
               head == Fragment([ExecNode(g.tasks[k].id, OperationKind(g.tasks[k].isStub, executor))],
                                EdgesInto(ResolveDeps(DepsOf(g, k), [StartId(g.id)]), g.tasks[k].id))
    requires g.tasks[k].WorkflowTask? ==>
               var sg := g.tasks[k].graph;
               var deps := ResolveDeps(DepsOf(g, k), [StartId(g.id)]);
               && |head.nodes| >= 2
               && head.nodes[0] == ExecNode(StartId(sg.id), StartSubWorkflow)
               && head.nodes[|head.nodes| - 1] == ExecNode(EndId(sg.id), EndSubWorkflow)
               && |head.edges| >= |deps|
               && head.edges[..|deps|] == EdgesInto(deps, StartId(sg.id))
    requires forall n :: n in head.nodes ==> n in f.nodes
    requires forall e :: e in head.edges ==> e in f.edges
    ensures TaskTranslated(g, k, f, executor)
  {
    var deps := ResolveDeps(DepsOf(g, k), [StartId(g.id)]);
    match g.tasks[k]
    case OperationTask(id, stub) =>
      forall d | d in deps
        ensures Edge(d, id) in f.edges
      {
        var j :| 0 <= j < |deps| && deps[j] == d;
        assert head.edges[j] == Edge(d, id);
      }
    case WorkflowTask(sg) =>
      assert head.nodes[0] in head.nodes;
      assert head.nodes[|head.nodes| - 1] in head.nodes;
      forall d | d in deps
        ensures Edge(d, StartId(sg.id)) in f.edges
      {
        var j :| 0 <= j < |deps| && deps[j] == d;
        assert head.edges[..|deps|][j] == Edge(d, StartId(sg.id));
        assert head.edges[j] in head.edges;
      }
  }

  lemma FragmentKeepsTranslated(g: TaskGraph, body: Fragment, f: Fragment, executor: string)
    requires ValidGraph(g)
    requires forall i :: 0 <= i < |g.tasks| ==> TaskTranslated(g, i, body, executor)
    requires forall n :: n in body.nodes ==> n in f.nodes
    requires forall e :: e in body.edges ==> e in f.edges
    ensures forall i :: 0 <= i < |g.tasks| ==> TaskTranslated(g, i, f, executor)
  {
    forall i | 0 <= i < |g.tasks|
      ensures TaskTranslated(g, i, f, executor)
    {
      TranslatedMonotone(g, i, body, f, executor);
    }
  }

  /** A node the translation of `g` may add: one of its markers, or a node of
      one of its tasks. */
  predicate NodeOf(g: TaskGraph, n: ExecNode, sub: bool, executor: string)
    decreases g, 2
  {
    || n == ExecNode(StartId(g.id), if sub then StartSubWorkflow else StartWorkflow)
    || n == ExecNode(EndId(g.id), if sub then EndSubWorkflow else EndWorkflow)
    || NodeOfTasks(g, 0, n, executor)
  }

  /** A node some task of `g` from position `k` on may add. */
  predicate NodeOfTasks(g: TaskGraph, k: nat, n: ExecNode, executor: string)
    decreases g, 1
  {
    exists i: nat :: k <= i < |g.tasks| && NodeOfTask(g, i, n, executor)
  }

  /** A node task `i` of `g` may add: the operation's node, or a node of the
      sub-workflow's own translation. */
  predicate NodeOfTask(g: TaskGraph, i: nat, n: ExecNode, executor: string)
    requires i < |g.tasks|
    decreases g, 0
  {
    match g.tasks[i]
    case OperationTask(id, stub) => n == ExecNode(id, OperationKind(stub, executor))
    case WorkflowTask(sg) => (assert g.tasks[i] in g.tasks; NodeOf(sg, n, true, executor))
    case OtherTask(_) => false
  }

  /** An edge the translation of `g` may add: into the start marker from
      `dependsOn`, into the end marker from a resolved sink, or an edge of
      one of its tasks. */
  predicate EdgeOf(g: TaskGraph, e: Edge, dependsOn: seq<string>)
    requires ValidGraph(g)
    decreases g, 2
  {
    || (e.to == StartId(g.id) && e.from in dependsOn)
    || (e.to == EndId(g.id) && e.from in ResolveDeps(NonDependencyTasks(g), [StartId(g.id)]))
    || EdgeOfTasks(g, 0, e)
  }

  /** An edge some task of `g` from position `k` on may add. */
  predicate EdgeOfTasks(g: TaskGraph, k: nat, e: Edge)
    requires ValidGraph(g)
    decreases g, 1
  {
    exists i: nat :: k <= i < |g.tasks| && EdgeOfTask(g, i, e)
  }

  /** An edge task `i` of `g` may add: into the operation from one of its
      resolved dependencies, or an edge of the sub-workflow's translation
      with those dependencies in front of its start marker. */
  predicate EdgeOfTask(g: TaskGraph, i: nat, e: Edge)
    requires ValidGraph(g) && i < |g.tasks|
    decreases g, 0
  {
    var deps := ResolveDeps(DepsOf(g, i), [StartId(g.id)]);
    match g.tasks[i]
    case OperationTask(id, _) => e.to == id && e.from in deps
    case WorkflowTask(sg) => (assert g.tasks[i] in g.tasks; EdgeOf(sg, e, deps))
    case OtherTask(_) => false
  }

  /** The translation adds nothing else: every node is a marker or a task's
      node, every edge a marker edge or a task's edge, at every depth. */
  lemma {:induction false} BuildAddsNothingElse(g: TaskGraph, executor: string, sub: bool, dependsOn: seq<string>)
    requires ValidGraph(g) && Build(g, executor, sub, dependsOn).Ok?
    ensures var f := Build(g, executor, sub, dependsOn).value;
            && (forall n :: n in f.nodes ==> NodeOf(g, n, sub, executor))
            && (forall e :: e in f.edges ==> EdgeOf(g, e, dependsOn))
    decreases g, 1
  {
    var body := BuildTasks(g, 0, executor);
    assert body.Ok?;
    BuildTasksAddsNothingElse(g, 0, executor);
    var start := ExecNode(StartId(g.id), if sub then StartSubWorkflow else StartWorkflow);
    var end := ExecNode(EndId(g.id), if sub then EndSubWorkflow else EndWorkflow);
    var endDeps := ResolveDeps(NonDependencyTasks(g), [StartId(g.id)]);
    var f := Build(g, executor, sub, dependsOn).value;
    assert f.nodes == [start] + body.value.nodes + [end];
    assert f.edges == EdgesInto(dependsOn, start.id) + body.value.edges + EdgesInto(endDeps, end.id);
    forall e | e in f.edges
      ensures EdgeOf(g, e, dependsOn)
    {
      if e in EdgesInto(dependsOn, start.id) {
        var j :| 0 <= j < |dependsOn| && EdgesInto(dependsOn, start.id)[j] == e;
        assert dependsOn[j] in dependsOn;
      } else if e !in body.value.edges {
        assert e in EdgesInto(endDeps, end.id);
        var j :| 0 <= j < |endDeps| && EdgesInto(endDeps, end.id)[j] == e;
        assert endDeps[j] in endDeps;
      }
    }
  }

  /** The loop from position `k` adds only the nodes and edges of the tasks
      from `k` on. */
  lemma {:induction false} BuildTasksAddsNothingElse(g: TaskGraph, k: nat, executor: string)
    requires ValidGraph(g) && k <= |g.tasks| && BuildTasks(g, k, executor).Ok?
    ensures var f := BuildTasks(g, k, executor).value;
            && (forall n :: n in f.nodes ==> NodeOfTasks(g, k, n, executor))
            && (forall e :: e in f.edges ==> EdgeOfTasks(g, k, e))
    decreases g, 0, |g.tasks| - k
  {
    if k < |g.tasks| {
      var t := g.tasks[k];
      assert t in g.tasks;
      var deps := ResolveDeps(DepsOf(g, k), [StartId(g.id)]);
      var head :=
        match t
        case OperationTask(id, stub) =>
          Ok(Fragment([ExecNode(id, OperationKind(stub, executor))], EdgesInto(deps, id)))
        case WorkflowTask(sg) => Build(sg, executor, true, deps)
        case OtherTask(_) => Err("Undefined state");
      var rest := BuildTasks(g, k + 1, executor);
      assert head.Ok? && rest.Ok?;
      assert BuildTasks(g, k, executor).value
             == Fragment(head.value.nodes + rest.value.nodes, head.value.edges + rest.value.edges);
      BuildTasksAddsNothingElse(g, k + 1, executor);
      if t.WorkflowTask? {
        BuildAddsNothingElse(t.graph, executor, true, deps);
      }
      HeadAddsNothingElse(g, k, head.value, executor);
      ConcatAddsNothingElse(g, k, head.value, rest.value, executor);
    }
  }

  /** The fragment built for task `k` holds only that task's nodes and edges. */
  lemma HeadAddsNothingElse(g: TaskGraph, k: nat, head: Fragment, executor: string)
    requires ValidGraph(g) && k < |g.tasks|
    requires g.tasks[k].OperationTask? ==>
               head == Fragment([ExecNode(g.tasks[k].id, OperationKind(g.tasks[k].isStub, executor))],
                                EdgesInto(ResolveDeps(DepsOf(g, k), [StartId(g.id)]), g.tasks[k].id))
    requires g.tasks[k].WorkflowTask? ==>
               var deps := ResolveDeps(DepsOf(g, k), [StartId(g.id)]);
               && ValidGraph(g.tasks[k].graph)
               && (forall n :: n in head.nodes ==> NodeOf(g.tasks[k].graph, n, true, executor))
               && (forall e :: e in head.edges ==> EdgeOf(g.tasks[k].graph, e, deps))
    requires g.tasks[k].OtherTask? ==> head == Fragment([], [])
    ensures forall n :: n in head.nodes ==> NodeOfTask(g, k, n, executor)
    ensures forall e :: e in head.edges ==> EdgeOfTask(g, k, e)
  {
    var deps := ResolveDeps(DepsOf(g, k), [StartId(g.id)]);
    forall e | e in head.edges
      ensures EdgeOfTask(g, k, e)
    {
      if g.tasks[k].OperationTask? {
        var j :| 0 <= j < |deps| && EdgesInto(deps, g.tasks[k].id)[j] == e;
        assert deps[j] in deps;
      }
    }
  }

  /** Task `k`'s fragment followed by the later tasks' adds only the nodes and
      edges of the tasks from `k` on. */
  lemma ConcatAddsNothingElse(g: TaskGraph, k: nat, head: Fragment, rest: Fragment, executor: string)
    requires ValidGraph(g) && k < |g.tasks|
    requires forall n :: n in head.nodes ==> NodeOfTask(g, k, n, executor)
    requires forall e :: e in head.edges ==> EdgeOfTask(g, k, e)
    requires forall n :: n in rest.nodes ==> NodeOfTasks(g, k + 1, n, executor)
    requires forall e :: e in rest.edges ==> EdgeOfTasks(g, k + 1, e)
    ensures forall n :: n in head.nodes + rest.nodes ==> NodeOfTasks(g, k, n, executor)
    ensures forall e :: e in head.edges + rest.edges ==> EdgeOfTasks(g, k, e)
  {
    forall n | n in head.nodes + rest.nodes
      ensures NodeOfTasks(g, k, n, executor)
    {
      if n in head.nodes {
        assert NodeOfTask(g, k, n, executor);
      } else {
        assert NodeOfTasks(g, k + 1, n, executor);
        var i: nat :| k + 1 <= i < |g.tasks| && NodeOfTask(g, i, n, executor);
      }
    }
    forall e | e in head.edges + rest.edges
      ensures EdgeOfTasks(g, k, e)
    {
      if e in head.edges {
        assert EdgeOfTask(g, k, e);
      } else {
        assert EdgeOfTasks(g, k + 1, e);
        var i: nat :| k + 1 <= i < |g.tasks| && EdgeOfTask(g, i, e);
      }
    }
  }

  /** An operation task without dependencies hangs off its graph's start marker. */
  lemma IndependentOperationFollowsStart(g: TaskGraph, i: nat, executor: string, sub: bool, dependsOn: seq<string>)
    requires ValidGraph(g) && i < |g.tasks|
    requires g.tasks[i].OperationTask? && |g.deps[i]| == 0
    requires Build(g, executor, sub, dependsOn).Ok?
    ensures Edge(StartId(g.id), g.tasks[i].id) in Build(g, executor, sub, dependsOn).value.edges
  {
    var f := Build(g, executor, sub, dependsOn).value;
    assert TaskTranslated(g, i, f, executor);
    assert ResolveDeps(DepsOf(g, i), [StartId(g.id)]) == [StartId(g.id)];
  }

  lemma {:induction false} NoSinksNoNonDependencyTasks(g: TaskGraph, k: nat)
    requires k <= |g.tasks|
    requires forall i :: 0 <= i < |g.tasks| ==> !IsSink(g, i)
    ensures NonDependencyFrom(g, k) == []
    decreases |g.tasks| - k
  {
    if k < |g.tasks| {
      NoSinksNoNonDependencyTasks(g, k + 1);
    }
  }

  /** A graph whose every task has a dependent ends in an end marker that hangs
      off the start marker only. For a non-empty graph this needs a
      dependency cycle, which a topological order rules out; it is the empty
      graph that the premise is meant for. */
  lemma EndFollowsStartWhenNoSinks(g: TaskGraph, executor: string, sub: bool, dependsOn: seq<string>)
    requires ValidGraph(g) && !HasOtherTask(g)
    requires forall i :: 0 <= i < |g.tasks| ==> !IsSink(g, i)
    ensures var f := Build(g, executor, sub, dependsOn).value;
            f.edges[|f.edges| - 1] == Edge(StartId(g.id), EndId(g.id))
  {
    var ns := NonDependencyTasks(g);
    NoSinksNoNonDependencyTasks(g, 0);
    var r := Build(g, executor, sub, dependsOn);
    var f := r.value;
    var endDeps := ResolveDeps(ns, [StartId(g.id)]);
    assert endDeps == [StartId(g.id)];
    assert f.edges[|f.edges| - 1..] == EdgesInto(endDeps, EndId(g.id));
    assert f.edges[|f.edges| - 1] == f.edges[|f.edges| - 1..][0];
  }
}
