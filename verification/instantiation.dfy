/** Turning a service template into a service instance: one node per default
    instance of each node template, supplied inputs checked against the
    declared ones, mappings resolved to the first matching node, and policy
    and group targets collected from the instance's nodes and groups. Node and
    group ids come from a counter the modelling context keeps (the generator
    is not part of this model); properties, interfaces and the other
    sub-dicts are instantiated by a helper that is not part of this model. */
module Instantiation {
  import opened Base

  datatype NodeTemplate = NodeTemplate(name: string, defaultInstances: nat)

  /** A validation issue; `BETWEEN_INSTANCES` is the level for problems that
      only show once instances exist. */
  datatype Level = Default | BetweenInstances
  datatype Issue = Issue(message: string, level: Level)

  /** Total number of instances the templates ask for. */
  function SumInstances(ts: seq<NodeTemplate>): nat {
    if |ts| == 0 then 0 else SumInstances(ts[..|ts| - 1]) + ts[|ts| - 1].defaultInstances
  }

  /** The ids `first <= id < next`. */
  function IdRange(first: nat, next: nat): (s: set<nat>)
    ensures forall id :: id in s <==> first <= id < next
    ensures first <= next ==> |s| == next - first
    decreases next - first
  {
    if next <= first then {}
    else
      var s := IdRange(first, next - 1) + {next - 1};
      assert next - 1 !in IdRange(first, next - 1);
      s
  }

  /** One template's share of the node loop: `count` nodes named `name`
      under the next ids. */
  method AddNodes(nodes: map<nat, string>, firstId: nat, nextId: nat, name: string, count: nat)
    returns (nodes': map<nat, string>, nextId': nat)
    requires firstId <= nextId
    requires forall id :: id in nodes <==> firstId <= id < nextId
    ensures nextId' == nextId + count
    ensures forall id :: id in nodes' <==> firstId <= id < nextId'
    ensures forall id :: id in nodes ==> nodes'[id] == nodes[id]
    ensures forall id :: nextId <= id < nextId' ==> nodes'[id] == name
  {
    nodes' := nodes;
    nextId' := nextId;
    var k := 0;
    while k < count
      invariant 0 <= k <= count
      invariant nextId' == nextId + k
      invariant forall id :: id in nodes' <==> firstId <= id < nextId'
      invariant forall id :: id in nodes ==> nodes'[id] == nodes[id]
      invariant forall id :: nextId <= id < nextId' ==> nodes'[id] == name
    {
      var prev := nodes';
      nodes' := prev[nextId' := name];
      forall id
        ensures id in nodes' <==> firstId <= id < nextId' + 1
      {
        assert id in nodes' <==> id == nextId' || id in prev;
      }
      nextId' := nextId' + 1;
      k := k + 1;
    }
  }

  /** A longer prefix of the templates asks for at least as many instances. */
  lemma {:induction false} SumPrefixGrows(ts: seq<NodeTemplate>, a: nat, b: nat)
    requires a <= b <= |ts|
    ensures SumInstances(ts[..a]) <= SumInstances(ts[..b])
    decreases b - a
  {
    if a < b {
      SumPrefixGrows(ts, a, b - 1);
      assert ts[..b][..b - 1] == ts[..b - 1];
    }
  }

  /** The ids template `t` owns: the block after the instances of the
      templates iterated before it. */
  predicate InBlock(templates: seq<NodeTemplate>, firstId: nat, t: nat, id: nat)
    requires t < |templates|
  {
    firstId + SumInstances(templates[..t]) <= id < firstId + SumInstances(templates[..t + 1])
  }

  /** The node loop of `instantiate_service`: `default_instances` nodes per
      template, in the order the templates are iterated, each stored under a
      fresh id and naming its template. */
  method InstantiateNodes(templates: seq<NodeTemplate>, firstId: nat) returns (nodes: map<nat, string>, nextId: nat)
    ensures |nodes| == SumInstances(templates)
    ensures nodes.Keys == IdRange(firstId, nextId)
    ensures forall t: nat, id: nat :: t < |templates| && InBlock(templates, firstId, t, id) ==>
              id in nodes && nodes[id] == templates[t].name
    ensures forall id :: id in nodes ==> exists t :: 0 <= t < |templates| && nodes[id] == templates[t].name
  {
    nodes := map[];
    nextId := firstId;
    var t := 0;
    while t < |templates|
      invariant 0 <= t <= |templates|
      invariant firstId <= nextId
      invariant forall id :: id in nodes <==> firstId <= id < nextId
      invariant nextId - firstId == SumInstances(templates[..t])
      invariant forall u: nat, id: nat :: u < t && InBlock(templates, firstId, u, id) ==>
                  id in nodes && nodes[id] == templates[u].name
      invariant forall id :: id in nodes ==> exists u :: 0 <= u < t && nodes[id] == templates[u].name
    {
      var before := nodes;
      var beforeNext := nextId;
      nodes, nextId := AddNodes(nodes, firstId, nextId, templates[t].name, templates[t].defaultInstances);
      assert templates[..t + 1][..t] == templates[..t];
      forall u: nat, id: nat | u < t + 1 && InBlock(templates, firstId, u, id)
        ensures id in nodes && nodes[id] == templates[u].name
      {
        if u < t {
          SumPrefixGrows(templates, u + 1, t);
          assert id in before;
        } else {
          assert beforeNext <= id < nextId;
        }
      }
      forall id | id in nodes
        ensures exists u :: 0 <= u < t + 1 && nodes[id] == templates[u].name
      {
        if id in before {
          var u :| 0 <= u < t && before[id] == templates[u].name;
        } else {
          assert nodes[id] == templates[t].name;
        }
      }
      t := t + 1;
    }
    assert templates[..t] == templates;
    assert nodes.Keys == IdRange(firstId, nextId);
  }

  function Unsupported(name: string): string {
    "input \"" + name + "\" is not supported"
  }

  /** Some supplied input has this name. */
  predicate Supplies(supplied: seq<(string, string)>, n: string) {
    exists i :: 0 <= i < |supplied| && supplied[i].0 == n
  }

  lemma SuppliesSplit(supplied: seq<(string, string)>, n: string)
    requires |supplied| > 0
    ensures Supplies(supplied, n) <==> supplied[0].0 == n || Supplies(supplied[1..], n)
  {
    if Supplies(supplied, n) {
      var i :| 0 <= i < |supplied| && supplied[i].0 == n;
      if i > 0 {
        assert supplied[1..][i - 1].0 == n;
      }
    }
    if Supplies(supplied[1..], n) {
      var i :| 0 <= i < |supplied[1..]| && supplied[1..][i].0 == n;
      assert supplied[i + 1].0 == n;
    }
  }

  /** The value an input ends with: the last supplied value, if any. */
  function SuppliedValue(supplied: seq<(string, string)>, name: string): Option<string>
    decreases |supplied|
  {
    if |supplied| == 0 then None
    else
      var later := SuppliedValue(supplied[1..], name);
      if later.Some? then later else if supplied[0].0 == name then Some(supplied[0].1) else None
  }

  datatype InputsOutcome = InputsOutcome(inputs: map<string, string>, issues: seq<Issue>)

  /** The input loop of `instantiate_service`: a declared input takes the
      supplied value; an undeclared one is reported. */
  function AssignInputs(declared: map<string, string>, supplied: seq<(string, string)>): (r: InputsOutcome)
    ensures r.inputs.Keys == declared.Keys
    ensures forall n :: n in declared ==> r.inputs[n] == SuppliedValue(supplied, n).GetOr(declared[n])
    ensures |r.issues| <= |supplied|
    decreases |supplied|
  {
    if |supplied| == 0 then InputsOutcome(declared, [])
    else
      var (name, value) := supplied[0];
      var first := if name in declared then InputsOutcome(declared[name := value], [])
                   else InputsOutcome(declared, [Issue(Unsupported(name), Default)]);
      var rest := AssignInputs(first.inputs, supplied[1..]);
      InputsOutcome(rest.inputs, first.issues + rest.issues)
  }

  /** An issue is raised for exactly the undeclared names among the supplied
      inputs, and every issue is of that kind. */
  lemma {:induction false} IssuesNameUndeclaredInputs(declared: map<string, string>, supplied: seq<(string, string)>, n: string)
    ensures Issue(Unsupported(n), Default) in AssignInputs(declared, supplied).issues
            <==> n !in declared && Supplies(supplied, n)
    ensures forall iss :: iss in AssignInputs(declared, supplied).issues ==>
              iss.level == Default && exists m :: iss.message == Unsupported(m) && m !in declared && Supplies(supplied, m)
    decreases |supplied|
  {
    if |supplied| > 0 {
      var (name, value) := supplied[0];
      var inputs := if name in declared then declared[name := value] else declared;
      var first: seq<Issue> := if name in declared then [] else [Issue(Unsupported(name), Default)];
      var rest := AssignInputs(inputs, supplied[1..]);
      assert AssignInputs(declared, supplied).issues == first + rest.issues;
      IssuesNameUndeclaredInputs(inputs, supplied[1..], n);
      SuppliesSplit(supplied, n);
      if Issue(Unsupported(n), Default) in first {
        UnsupportedInjective(n, name);
      }
      forall iss | iss in first + rest.issues
        ensures iss.level == Default && exists m :: iss.message == Unsupported(m) && m !in declared && Supplies(supplied, m)
      {
        if iss in first {
          SuppliesSplit(supplied, name);
        } else {
          var m :| iss.message == Unsupported(m) && m !in inputs && Supplies(supplied[1..], m);
          SuppliesSplit(supplied, m);
        }
      }
    }
  }

  lemma UnsupportedInjective(a: string, b: string)
    requires Unsupported(a) == Unsupported(b)
    ensures a == b
  {
    var p := "input \"";
    assert Unsupported(a) == p + (a + "\" is not supported");
    assert Unsupported(b) == p + (b + "\" is not supported");
    assert (p + (a + "\" is not supported"))[|p|..] == a + "\" is not supported";
    assert (p + (b + "\" is not supported"))[|p|..] == b + "\" is not supported";
    assert (a + "\" is not supported")[..|a|] == a;
    assert (b + "\" is not supported")[..|b|] == b;
  }

  /** A node of the service instance: its id and the template it came from. */
  datatype Node = Node(id: nat, templateName: string)

  /** `find_nodes` / `get_node_ids`: the instance's nodes of one template, in
      order. */
  function NodeIdsOf(nodes: seq<Node>, templateName: string): (ids: seq<nat>)
    ensures forall i :: 0 <= i < |nodes| && nodes[i].templateName == templateName ==> nodes[i].id in ids
    ensures forall id :: id in ids ==> exists i :: 0 <= i < |nodes| && nodes[i].id == id && nodes[i].templateName == templateName
    ensures |ids| <= |nodes|
  {
    if |nodes| == 0 then []
    else
      var rest := NodeIdsOf(nodes[1..], templateName);
      assert forall i :: 1 <= i < |nodes| ==> nodes[i] == nodes[1..][i - 1];
      (if nodes[0].templateName == templateName then [nodes[0].id] else []) + rest
  }

  datatype Mapping = Mapping(mappedName: string, nodeId: nat, name: string)

  /** `instantiate_mapping`: the first node of the template, or a
      between-instances issue and nothing when there is none. */
  function InstantiateMapping(mappedName: string, nodeTemplateName: string, name: string, nodes: seq<Node>)
    : (r: (Option<Mapping>, seq<Issue>))
    ensures r.0.None? <==> forall i :: 0 <= i < |nodes| ==> nodes[i].templateName != nodeTemplateName
    ensures r.0.None? ==> |r.1| == 1 && r.1[0].level == BetweenInstances
    ensures r.0.Some? ==> r.1 == [] && r.0.value.mappedName == mappedName && r.0.value.name == name
    ensures r.0.Some? ==> exists i :: 0 <= i < |nodes| && nodes[i].templateName == nodeTemplateName
                                     && nodes[i].id == r.0.value.nodeId
                                     && forall j :: 0 <= j < i ==> nodes[j].templateName != nodeTemplateName
  {
    var found := NodeIdsOf(nodes, nodeTemplateName);
    if |found| == 0 then
      (None, [Issue("mapping \"" + mappedName + "\" refer to node template \"" + nodeTemplateName
                    + "\" but there are no node instances", BetweenInstances)])
    else
      FirstMatch(nodes, nodeTemplateName);
      (Some(Mapping(mappedName, found[0], name)), [])
  }

  /** The first id `NodeIdsOf` returns belongs to the first matching node. */
  lemma {:induction false} FirstMatch(nodes: seq<Node>, templateName: string)
    requires |NodeIdsOf(nodes, templateName)| > 0
    ensures exists i :: 0 <= i < |nodes| && nodes[i].templateName == templateName
                        && nodes[i].id == NodeIdsOf(nodes, templateName)[0]
                        && forall j :: 0 <= j < i ==> nodes[j].templateName != templateName
  {
    if nodes[0].templateName != templateName {
      FirstMatch(nodes[1..], templateName);
      var i :| 0 <= i < |nodes[1..]| && nodes[1..][i].templateName == templateName
               && nodes[1..][i].id == NodeIdsOf(nodes[1..], templateName)[0]
               && forall j :: 0 <= j < i ==> nodes[1..][j].templateName != templateName;
      assert nodes[i + 1] == nodes[1..][i];
      forall j | 0 <= j < i + 1
        ensures nodes[j].templateName != templateName
      {
        if j > 0 {
          assert nodes[j] == nodes[1..][j - 1];
        }
      }
    }
  }

  /** A group of the service instance: its id and the template it came from. */
  datatype Group = Group(id: nat, templateName: string)

  function GroupIdsOf(groups: seq<Group>, templateName: string): (ids: seq<nat>)
    ensures forall i :: 0 <= i < |groups| && groups[i].templateName == templateName ==> groups[i].id in ids
    ensures forall id :: id in ids ==> exists i :: 0 <= i < |groups| && groups[i].id == id && groups[i].templateName == templateName
  {
    if |groups| == 0 then []
    else
      var rest := GroupIdsOf(groups[1..], templateName);
      assert forall i :: 1 <= i < |groups| ==> groups[i] == groups[1..][i - 1];
      (if groups[0].templateName == templateName then [groups[0].id] else []) + rest
  }

  /** The ids of one template name each, concatenated in the names' order:
      `target_node_ids.extend(...)` and `member_node_ids += ...`. */
  function CollectNodeIds(nodes: seq<Node>, names: seq<string>): (ids: seq<nat>)
    ensures forall id :: id in ids <==> exists i, k :: 0 <= i < |nodes| && 0 <= k < |names|
                                                   && nodes[i].id == id && nodes[i].templateName == names[k]
  {
    var parts := seq(|names|, k requires 0 <= k < |names| => NodeIdsOf(nodes, names[k]));
    forall id
      ensures id in Flatten(parts) <==> exists i, k :: 0 <= i < |nodes| && 0 <= k < |names|
                                                      && nodes[i].id == id && nodes[i].templateName == names[k]
    {
      FlattenMembership(parts, id);
      if exists i, k :: 0 <= i < |nodes| && 0 <= k < |names| && nodes[i].id == id && nodes[i].templateName == names[k] {
        var i, k :| 0 <= i < |nodes| && 0 <= k < |names| && nodes[i].id == id && nodes[i].templateName == names[k];
        assert id in parts[k];
      }
    }
    Flatten(parts)
  }

  function CollectGroupIds(groups: seq<Group>, names: seq<string>): (ids: seq<nat>)
    ensures forall id :: id in ids <==> exists i, k :: 0 <= i < |groups| && 0 <= k < |names|
                                                   && groups[i].id == id && groups[i].templateName == names[k]
  {
    var parts := seq(|names|, k requires 0 <= k < |names| => GroupIdsOf(groups, names[k]));
    forall id
      ensures id in Flatten(parts) <==> exists i, k :: 0 <= i < |groups| && 0 <= k < |names|
                                                      && groups[i].id == id && groups[i].templateName == names[k]
    {
      FlattenMembership(parts, id);
      if exists i, k :: 0 <= i < |groups| && 0 <= k < |names| && groups[i].id == id && groups[i].templateName == names[k] {
        var i, k :| 0 <= i < |groups| && 0 <= k < |names| && groups[i].id == id && groups[i].templateName == names[k];
        assert id in parts[k];
      }
    }
    Flatten(parts)
  }

  /** Policies and groups draw their ids the same way. */
  datatype Targets = Targets(nodeIds: seq<nat>, groupIds: seq<nat>)

  /** `instantiate_policy`'s targets, and likewise a group's members. */
  function ResolveTargets(nodes: seq<Node>, groups: seq<Group>, nodeNames: seq<string>, groupNames: seq<string>): (r: Targets)
    ensures forall id :: id in r.nodeIds <==> exists i :: 0 <= i < |nodes| && nodes[i].id == id && nodes[i].templateName in nodeNames
    ensures forall id :: id in r.groupIds <==> exists i :: 0 <= i < |groups| && groups[i].id == id && groups[i].templateName in groupNames
  {
    Targets(CollectNodeIds(nodes, nodeNames), CollectGroupIds(groups, groupNames))
  }

  /** The targets of a policy are the concatenation, per target name in
      order, of that template's node ids. */
  lemma {:induction false} TargetsInOrder(nodes: seq<Node>, names: seq<string>, name: string)
    ensures CollectNodeIds(nodes, names + [name]) == CollectNodeIds(nodes, names) + NodeIdsOf(nodes, name)
  {
    var parts := seq(|names|, k requires 0 <= k < |names| => NodeIdsOf(nodes, names[k]));
    var parts' := seq(|names + [name]|, k requires 0 <= k < |names + [name]| => NodeIdsOf(nodes, (names + [name])[k]));
    assert parts' == parts + [NodeIdsOf(nodes, name)];
    FlattenAppend(parts, NodeIdsOf(nodes, name));
  }

  datatype OperationTemplate = OperationTemplate(
    name: string, implementation: string, dependencies: seq<string>, executor: string,
    maxRetries: int, retryInterval: int)
  datatype Operation = Operation(
    name: string, implementation: string, dependencies: seq<string>, executor: string,
    maxRetries: int, retryInterval: int)

  /** `instantiate_operation`: the execution settings are copied. */
  function InstantiateOperation(t: OperationTemplate): (op: Operation)
    ensures op.name == t.name && op.implementation == t.implementation
    ensures op.dependencies == t.dependencies && op.executor == t.executor
    ensures op.maxRetries == t.maxRetries && op.retryInterval == t.retryInterval
  {
    Operation(t.name, t.implementation, t.dependencies, t.executor, t.maxRetries, t.retryInterval)
  }

  datatype CapabilityTemplate = CapabilityTemplate(name: string, typeName: string, minOccurrences: int, maxOccurrences: Option<int>)
  datatype Capability = Capability(name: string, typeName: string, minOccurrences: int, maxOccurrences: Option<int>)

  /** `instantiate_capability`: the occurrence bounds are copied. */
  function InstantiateCapability(t: CapabilityTemplate): (c: Capability)
    ensures c.name == t.name && c.typeName == t.typeName
    ensures c.minOccurrences == t.minOccurrences && c.maxOccurrences == t.maxOccurrences
  {
    Capability(t.name, t.typeName, t.minOccurrences, t.maxOccurrences)
  }
}
