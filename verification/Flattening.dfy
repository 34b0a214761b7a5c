/** Flattening a task into its leaf occurrences (execution/plan.rs, `flatten`
    and its inner `emit`). A step path is carried as its list of segments;
    StepPaths.dfy shows that the dotted rendering is injective, so comparing
    segments is comparing the strings the program compares. */
module Flattening {
  import opened Wrappers
  import opened Graphs
  import opened Ordering
  import opened Programs

  type Path = seq<string>

  datatype FlatNode = FlatNode(path: Path, task: TaskId, dependsOn: set<Path>)
  datatype PlanNode = PlanNode(path: Path, task: TaskId)

  datatype PlanError =
    | MissingTask(task: TaskId)
    | TaskCycle(chain: seq<TaskId>)
    | StepCycle(root: TaskId, stuck: seq<Path>)
    | ServiceCycle(start: ServiceId, trail: seq<ServiceId>)
    | StartupStuck(waiting: seq<ServiceId>)
    | NoWindow(slot: nat)
    | WindowTooSmall(slot: nat, endpoints: nat, services: nat)

  function Paths(nodes: seq<FlatNode>): (r: seq<Path>)
    ensures |r| == |nodes| && forall i :: 0 <= i < |nodes| ==> r[i] == nodes[i].path
  {
    seq(|nodes|, i requires 0 <= i < |nodes| => nodes[i].path)
  }

  function Extended(nodes: seq<FlatNode>, dependencies: set<Path>): (r: seq<FlatNode>)
    ensures |r| == |nodes|
    ensures forall i :: 0 <= i < |nodes| ==>
      r[i] == nodes[i].(dependsOn := nodes[i].dependsOn + dependencies)
  {
    seq(|nodes|, i requires 0 <= i < |nodes| => nodes[i].(dependsOn := nodes[i].dependsOn + dependencies))
  }

  function Concat<T>(parts: seq<seq<T>>): seq<T> {
    if parts == [] then [] else Concat(parts[..|parts| - 1]) + parts[|parts| - 1]
  }

  /** One task occurrence with the occurrences under each of its steps. */
  datatype Tree = LeafOf(task: TaskId) | Branch(task: TaskId, kids: seq<Kid>)
  datatype Kid = Kid(step: Step, tree: Tree)

  /** Unfolding task references, with the composites now being expanded. */
  function Unfold(p: Program, task: TaskId, visiting: seq<TaskId>): Result<Tree, PlanError>
    decreases p.tasks.Keys - Elements(visiting), 0, 0
  {
    if task !in p.tasks then Err(MissingTask(task))
    else
      match p.tasks[task]
      case Leaf(_) => Ok(LeafOf(task))
      case Composite(steps) =>
        if task in visiting then Err(TaskCycle(visiting + [task]))
        else
          Deeper(p, task, visiting);
          match UnfoldSteps(p, steps, visiting + [task])
          case Err(e) => Err(e)
          case Ok(kids) => Ok(Branch(task, kids))
  }

  function UnfoldSteps(p: Program, steps: seq<Step>, visiting: seq<TaskId>): (r: Result<seq<Kid>, PlanError>)
    ensures r.Ok? ==> |r.value| == |steps| && forall i :: 0 <= i < |steps| ==> r.value[i].step == steps[i]
    decreases p.tasks.Keys - Elements(visiting), 1, |steps|
  {
    if steps == [] then Ok([])
    else
      var last := |steps| - 1;
      match UnfoldSteps(p, steps[..last], visiting)
      case Err(e) => Err(e)
      case Ok(kids) =>
        match Unfold(p, steps[last].task, visiting)
        case Err(e) => Err(e)
        case Ok(tree) => Ok(kids + [Kid(steps[last], tree)])
  }

  /** The measure unfolding recurses on shrinks at every composite. */
  lemma {:induction false} Deeper(p: Program, task: TaskId, visiting: seq<TaskId>)
    requires task in p.tasks && task !in visiting
    ensures p.tasks.Keys - Elements(visiting + [task]) < p.tasks.Keys - Elements(visiting)
  {
    assert task in p.tasks.Keys - Elements(visiting) && task !in p.tasks.Keys - Elements(visiting + [task]);
  }

  function KidNames(kids: seq<Kid>): (r: seq<string>)
    ensures |r| == |kids| && forall k :: 0 <= k < |kids| ==> r[k] == kids[k].step.name
  {
    seq(|kids|, k requires 0 <= k < |kids| => kids[k].step.name)
  }

  /** Paths of every node in the parts whose name is wanted. */
  function PathsUnder(names: seq<string>, parts: seq<seq<FlatNode>>, wanted: seq<string>): set<Path>
    requires |parts| == |names|
  {
    set j, n | 0 <= j < |parts| && names[j] in wanted && n in parts[j] :: n.path
  }

  /** Paths of every node under the siblings that kid `i` depends on. */
  function DependencyPaths(kids: seq<Kid>, parts: seq<seq<FlatNode>>, i: nat): set<Path>
    requires |parts| == |kids| && i < |kids|
  {
    PathsUnder(KidNames(kids), parts, kids[i].step.dependsOn)
  }

  /** Sibling dependencies applied to the whole subtrees of the first `upTo` kids. */
  function Linked(kids: seq<Kid>, parts: seq<seq<FlatNode>>, upTo: nat): (r: seq<seq<FlatNode>>)
    requires |parts| == |kids|
    ensures |r| == |parts|
    ensures forall i :: 0 <= i < |parts| ==>
      r[i] == if i < upTo then Extended(parts[i], DependencyPaths(kids, parts, i)) else parts[i]
  {
    seq(|parts|, i requires 0 <= i < |parts| =>
      if i < upTo then Extended(parts[i], DependencyPaths(kids, parts, i)) else parts[i])
  }

  /** The nodes one occurrence contributes, in emission order. */
  function Nodes(t: Tree, path: Path): seq<FlatNode>
    decreases t
  {
    match t
    case LeafOf(task) => [FlatNode(path, task, {})]
    case Branch(_, kids) => Concat(Linked(kids, Parts(kids, path), |kids|))
  }

  function KidNodes(kid: Kid, path: Path): seq<FlatNode>
    decreases kid
  {
    Nodes(kid.tree, path + [kid.step.name])
  }

  function Parts(kids: seq<Kid>, path: Path): (r: seq<seq<FlatNode>>)
    ensures |r| == |kids|
    ensures forall i :: 0 <= i < |kids| ==> r[i] == KidNodes(kids[i], path)
    decreases kids
  {
    seq(|kids|, i requires 0 <= i < |kids| => KidNodes(kids[i], path))
  }

  /** The dependency graph of the flattened nodes, by path. */
  function DependencyGraph(nodes: seq<FlatNode>): (g: map<Path, set<Path>>)
    ensures g.Keys == Elements(Paths(nodes))
  {
    if nodes == [] then map[]
    else
      var last := nodes[|nodes| - 1];
      var before := nodes[..|nodes| - 1];
      assert Paths(nodes) == Paths(before) + [last.path];
      DependencyGraph(before)[last.path := last.dependsOn]
  }

  function TaskAt(nodes: seq<FlatNode>, path: Path): TaskId
    requires path in Paths(nodes)
  {
    if nodes[0].path == path then nodes[0].task
    else
      assert path in Paths(nodes[1..]) by {
        var i :| 0 <= i < |nodes| && Paths(nodes)[i] == path;
        assert Paths(nodes[1..])[i - 1] == path;
      }
      TaskAt(nodes[1..], path)
  }

  function PlacedNodes(nodes: seq<FlatNode>, order: seq<Path>): (r: seq<PlanNode>)
    requires forall q <- order :: q in Paths(nodes)
    ensures |r| == |order|
    ensures forall i :: 0 <= i < |order| ==> r[i] == PlanNode(order[i], TaskAt(nodes, order[i]))
  {
    seq(|order|, i requires 0 <= i < |order| => PlanNode(order[i], TaskAt(nodes, order[i])))
  }

  lemma {:induction false} OrderedPathsKnown(nodes: seq<FlatNode>)
    ensures Declared(DependencyGraph(nodes), Paths(nodes))
    ensures var order := Order(Paths(nodes), DependencyGraph(nodes), {});
      order.Ok? ==> forall q <- order.value :: q in Paths(nodes)
  {
    var keys, deps := Paths(nodes), DependencyGraph(nodes);
    if Order(keys, deps, {}).Ok? {
      OrderIsPermutation(keys, deps, {});
      forall q <- Order(keys, deps, {}).value ensures q in keys {
        assert q in multiset(Order(keys, deps, {}).value);
      }
    }
  }

  /** The ordered leaf occurrences of one task. */
  function Flattened(p: Program, root: TaskId): Result<seq<PlanNode>, PlanError> {
    match Unfold(p, root, [])
    case Err(e) => Err(e)
    case Ok(tree) =>
      var nodes := Nodes(tree, [root]);
      OrderedPathsKnown(nodes);
      match Order(Paths(nodes), DependencyGraph(nodes), {})
      case Err(stuck) => Err(StepCycle(root, stuck))
      case Ok(order) => Ok(PlacedNodes(nodes, order))
  }
}
