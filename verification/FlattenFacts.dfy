/** What flattening means, stated over the task structure alone: which step
    paths name leaves, and which leaves must wait for which. */
module FlattenFacts {
  import opened Wrappers
  import opened Graphs
  import opened Programs
  import opened Flattening

  /** Position of a named step among its siblings. */
  function StepIndex(steps: seq<Step>, name: string): nat {
    if steps == [] || steps[0].name == name then 0 else 1 + StepIndex(steps[1..], name)
  }

  /** Depth-first emission order: where two leaf paths part, the earlier step comes first. */
  predicate EmittedBefore(p: Program, task: TaskId, a: Path, b: Path)
    decreases |a|
  {
    && task in p.tasks && p.tasks[task].Composite? && a != [] && b != []
    && var steps := p.tasks[task].steps;
    && var step := FindStep(steps, a[0]);
    && step.Some?
    && if a[0] == b[0] then EmittedBefore(p, step.value.task, a[1..], b[1..])
       else StepIndex(steps, a[0]) < StepIndex(steps, b[0])
  }

  function FindStep(steps: seq<Step>, name: string): (r: Option<Step>)
    ensures r.Some? ==> r.value in steps && r.value.name == name
    ensures r.None? <==> name !in StepNames(steps)
  {
    if steps == [] then None
    else if steps[0].name == name then Some(steps[0])
    else
      assert forall s :: s in steps <==> s == steps[0] || s in steps[1..];
      FindStep(steps[1..], name)
  }

  /** The task reached by following step names down from `task`. */
  function Resolve(p: Program, task: TaskId, names: Path): Option<TaskId>
    decreases |names|
  {
    if task !in p.tasks then None
    else if names == [] then Some(task)
    else
      match p.tasks[task]
      case Leaf(_) => None
      case Composite(steps) =>
        match FindStep(steps, names[0])
        case None => None
        case Some(step) => Resolve(p, step.task, names[1..])
  }

  predicate LeafAt(p: Program, task: TaskId, names: Path) {
    var found := Resolve(p, task, names);
    found.Some? && found.value in p.tasks && p.tasks[found.value].Leaf?
  }

  /** Leaf `a` waits for leaf `b` exactly when, at some composite enclosing
      both, a's step depends on b's step. */
  predicate MustFollow(p: Program, task: TaskId, a: Path, b: Path)
    decreases |a|
  {
    && task in p.tasks && p.tasks[task].Composite? && a != [] && b != []
    && var step := FindStep(p.tasks[task].steps, a[0]);
    && step.Some?
    && (b[0] in step.value.dependsOn || (a[0] == b[0] && MustFollow(p, step.value.task, a[1..], b[1..])))
  }

  lemma {:induction false} FindStepAt(steps: seq<Step>, i: nat)
    requires i < |steps| && StepNamesDistinct(steps)
    ensures FindStep(steps, steps[i].name) == Some(steps[i])
  {
    assert steps[i].name in StepNames(steps);
    var j :| 0 <= j < |steps| && steps[j] == FindStep(steps, steps[i].name).value;
  }

  lemma {:induction false} InConcat<T>(parts: seq<seq<T>>, x: T)
    ensures x in Concat(parts) <==> exists i :: 0 <= i < |parts| && x in parts[i]
    decreases |parts|
  {
    if parts == [] {
    } else {
      var last := |parts| - 1;
      InConcat(parts[..last], x);
      if i :| 0 <= i < |parts| && x in parts[i] {
        if i < last { assert x in parts[..last][i]; }
      }
    }
  }

  /** The tree has the steps and tasks the program declares. */
  predicate Represents(p: Program, t: Tree)
    decreases t
  {
    && t.task in p.tasks
    && match t
       case LeafOf(task) => p.tasks[task].Leaf?
       case Branch(task, kids) =>
         && p.tasks[task].Composite?
         && |kids| == |p.tasks[task].steps|
         && forall i :: 0 <= i < |kids| ==> kids[i].step == p.tasks[task].steps[i] && KidRepresents(p, kids[i])
  }

  predicate KidRepresents(p: Program, kid: Kid)
    decreases kid
  {
    kid.tree.task == kid.step.task && Represents(p, kid.tree)
  }

  lemma {:induction false} UnfoldRepresents(p: Program, task: TaskId, visiting: seq<TaskId>)
    requires Unfold(p, task, visiting).Ok?
    ensures Unfold(p, task, visiting).value.task == task
    ensures Represents(p, Unfold(p, task, visiting).value)
    decreases p.tasks.Keys - Elements(visiting), 0, 0
  {
    if p.tasks[task].Composite? {
      Deeper(p, task, visiting);
      UnfoldStepsRepresents(p, p.tasks[task].steps, visiting + [task]);
    }
  }

  lemma {:induction false} UnfoldStepsRepresents(p: Program, steps: seq<Step>, visiting: seq<TaskId>)
    requires UnfoldSteps(p, steps, visiting).Ok?
    ensures forall kid <- UnfoldSteps(p, steps, visiting).value :: KidRepresents(p, kid)
    decreases p.tasks.Keys - Elements(visiting), 1, |steps|
  {
    if steps != [] {
      UnfoldStepsRepresents(p, steps[..|steps| - 1], visiting);
      UnfoldRepresents(p, steps[|steps| - 1].task, visiting);
    }
  }

  lemma {:induction false} NodeOrigin(kids: seq<Kid>, path: Path, node: FlatNode) returns (i: nat, from: FlatNode)
    requires node in Concat(Linked(kids, Parts(kids, path), |kids|))
    ensures i < |kids| && from in KidNodes(kids[i], path)
    ensures node == from.(dependsOn := from.dependsOn + DependencyPaths(kids, Parts(kids, path), i))
  {
    var parts := Parts(kids, path);
    var linked := Linked(kids, parts, |kids|);
    InConcat(linked, node);
    i :| 0 <= i < |linked| && node in linked[i];
    var k :| 0 <= k < |linked[i]| && linked[i][k] == node;
    from := parts[i][k];
  }

  lemma {:induction false} NodeDestination(kids: seq<Kid>, path: Path, i: nat, from: FlatNode) returns (node: FlatNode)
    requires i < |kids| && from in KidNodes(kids[i], path)
    ensures node in Concat(Linked(kids, Parts(kids, path), |kids|))
    ensures node == from.(dependsOn := from.dependsOn + DependencyPaths(kids, Parts(kids, path), i))
  {
    var parts := Parts(kids, path);
    var linked := Linked(kids, parts, |kids|);
    var k :| 0 <= k < |parts[i]| && parts[i][k] == from;
    node := linked[i][k];
    InConcat(linked, node);
  }

  lemma {:induction false} ResolveThroughStep(p: Program, task: TaskId, i: nat, path: Path, full: Path)
    requires Validated(p) && task in p.tasks && p.tasks[task].Composite? && i < |p.tasks[task].steps|
    requires path + [p.tasks[task].steps[i].name] <= full
    ensures path <= full
    ensures Resolve(p, task, full[|path|..]) == Resolve(p, p.tasks[task].steps[i].task, full[|path| + 1..])
  {
    var names := full[|path|..];
    FindStepAt(p.tasks[task].steps, i);
    assert names[0] == p.tasks[task].steps[i].name && names[1..] == full[|path| + 1..];
  }

  /** Every node is the leaf its path names. */
  lemma {:induction false} NodeIsLeaf(p: Program, t: Tree, path: Path, node: FlatNode)
    requires Validated(p) && Represents(p, t) && node in Nodes(t, path)
    ensures path <= node.path && LeafAt(p, t.task, node.path[|path|..])
    ensures Resolve(p, t.task, node.path[|path|..]) == Some(node.task)
    decreases t
  {
    match t
    case LeafOf(_) =>
    case Branch(task, kids) =>
      var i, from := NodeOrigin(kids, path, node);
      assert KidRepresents(p, kids[i]);
      KidNodeIsLeaf(p, kids[i], path, from);
      ResolveThroughStep(p, task, i, path, node.path);
  }

  lemma {:induction false} KidNodeIsLeaf(p: Program, kid: Kid, path: Path, node: FlatNode)
    requires Validated(p) && KidRepresents(p, kid) && node in KidNodes(kid, path)
    ensures path + [kid.step.name] <= node.path && LeafAt(p, kid.step.task, node.path[|path| + 1..])
    ensures Resolve(p, kid.step.task, node.path[|path| + 1..]) == Some(node.task)
    decreases kid
  {
    NodeIsLeaf(p, kid.tree, path + [kid.step.name], node);
  }

  lemma {:induction false} KidOfLeaf(p: Program, t: Tree, names: Path) returns (i: nat)
    requires Represents(p, t) && LeafAt(p, t.task, names) && names != []
    ensures t.Branch? && i < |t.kids| && KidRepresents(p, t.kids[i])
    ensures t.kids[i].step.name == names[0] && LeafAt(p, t.kids[i].step.task, names[1..])
  {
    var steps := p.tasks[t.task].steps;
    var step := FindStep(steps, names[0]).value;
    i :| 0 <= i < |steps| && steps[i] == step;
  }

  /** Every path that names a leaf has a node. */
  lemma {:induction false} LeafHasNode(p: Program, t: Tree, path: Path, q: Path) returns (node: FlatNode)
    requires Represents(p, t) && path <= q && LeafAt(p, t.task, q[|path|..])
    ensures node in Nodes(t, path) && node.path == q
    decreases |q| - |path|, 0
  {
    if |q| == |path| {
      assert q[|path|..] == [];
      node := FlatNode(path, t.task, {});
    } else {
      var i := KidOfLeaf(p, t, q[|path|..]);
      assert q[|path|..][1..] == q[|path| + 1..];
      var from := KidLeafHasNode(p, t.kids[i], path, q);
      node := NodeDestination(t.kids, path, i, from);
    }
  }

  lemma {:induction false} KidLeafHasNode(p: Program, kid: Kid, path: Path, q: Path) returns (node: FlatNode)
    requires KidRepresents(p, kid) && path < q && q[|path|] == kid.step.name
    requires LeafAt(p, kid.step.task, q[|path| + 1..])
    ensures node in KidNodes(kid, path) && node.path == q
    decreases |q| - |path| - 1, 1
  {
    assert path + [kid.step.name] <= q;
    node := LeafHasNode(p, kid.tree, path + [kid.step.name], q);
  }

  ghost predicate DistinctPaths(nodes: seq<FlatNode>) {
    forall i, j :: 0 <= i < j < |nodes| ==> nodes[i].path != nodes[j].path
  }

  /** A relation holding inside each part and from earlier to later parts
      holds along the whole concatenation. */
  lemma {:induction false} ConcatPairwise(parts: seq<seq<FlatNode>>, r: (FlatNode, FlatNode) -> bool)
    requires forall k, i, j :: 0 <= k < |parts| && 0 <= i < j < |parts[k]| ==> r(parts[k][i], parts[k][j])
    requires forall k, l, a, b :: 0 <= k < l < |parts| && a in parts[k] && b in parts[l] ==> r(a, b)
    ensures forall i, j :: 0 <= i < j < |Concat(parts)| ==> r(Concat(parts)[i], Concat(parts)[j])
    decreases |parts|
  {
    if parts == [] {
    } else {
      var last := |parts| - 1;
      ConcatPairwise(parts[..last], r);
      var before := Concat(parts[..last]);
      forall a, b | a in before && b in parts[last] ensures r(a, b) {
        InConcat(parts[..last], a);
        var i :| 0 <= i < last && a in parts[..last][i];
        assert parts[..last][i] == parts[i];
      }
      var all := Concat(parts);
      forall i, j | 0 <= i < j < |all| ensures r(all[i], all[j]) {
        if j >= |before| {
          assert all[j] == parts[last][j - |before|];
          if i >= |before| { assert all[i] == parts[last][i - |before|]; }
        }
      }
    }
  }

  /** No two nodes share a step path. */
  lemma {:induction false} NodesDistinct(p: Program, t: Tree, path: Path)
    requires Validated(p) && Represents(p, t)
    ensures DistinctPaths(Nodes(t, path))
    decreases t
  {
    match t
    case LeafOf(_) =>
    case Branch(task, kids) =>
      var linked: seq<seq<FlatNode>> := Linked(kids, Parts(kids, path), |kids|);
      forall k, i, j | 0 <= k < |linked| && 0 <= i < j < |linked[k]| ensures linked[k][i].path != linked[k][j].path {
        KidNodesDistinct(p, kids[k], path);
      }
      forall i: nat, a: FlatNode | i < |linked| && a in linked[i]
        ensures |a.path| > |path| && a.path[|path|] == p.tasks[task].steps[i].name
      {
        var k :| 0 <= k < |linked[i]| && linked[i][k] == a;
        KidNodeIsLeaf(p, kids[i], path, KidNodes(kids[i], path)[k]);
      }
      ConcatPairwise(linked, (a: FlatNode, b: FlatNode) => a.path != b.path);
  }

  lemma {:induction false} KidNodesDistinct(p: Program, kid: Kid, path: Path)
    requires Validated(p) && KidRepresents(p, kid)
    ensures DistinctPaths(KidNodes(kid, path))
    decreases kid
  {
    NodesDistinct(p, kid.tree, path + [kid.step.name]);
  }

  /** Composites have steps, so every occurrence holds at least one leaf. */
  lemma {:induction false} NodesNonempty(p: Program, t: Tree, path: Path)
    requires Validated(p) && Represents(p, t)
    ensures Nodes(t, path) != []
    decreases t
  {
    match t
    case LeafOf(_) =>
    case Branch(_, kids) =>
      KidNodesNonempty(p, kids[0], path);
      var node := NodeDestination(kids, path, 0, KidNodes(kids[0], path)[0]);
  }

  lemma {:induction false} KidNodesNonempty(p: Program, kid: Kid, path: Path)
    requires Validated(p) && KidRepresents(p, kid)
    ensures KidNodes(kid, path) != []
    decreases kid
  {
    NodesNonempty(p, kid.tree, path + [kid.step.name]);
  }

  lemma {:induction false} MustFollowThroughStep(p: Program, task: TaskId, i: nat, path: Path, a: Path, q: Path)
    requires Validated(p) && task in p.tasks && p.tasks[task].Composite? && i < |p.tasks[task].steps|
    requires path + [p.tasks[task].steps[i].name] <= a && path <= q
    ensures var step := p.tasks[task].steps[i];
      MustFollow(p, task, a[|path|..], q[|path|..]) <==>
        && path < q
        && (q[|path|] in step.dependsOn ||
            (q[|path|] == step.name && MustFollow(p, step.task, a[|path| + 1..], q[|path| + 1..])))
  {
    FindStepAt(p.tasks[task].steps, i);
    assert a[|path|..][0] == p.tasks[task].steps[i].name && a[|path|..][1..] == a[|path| + 1..];
    if path < q { assert q[|path|..][1..] == q[|path| + 1..]; }
  }

  /** A node waits for exactly the leaves it must follow. */
  lemma {:induction false} DependenciesExact(p: Program, t: Tree, path: Path, node: FlatNode, q: Path)
    requires Validated(p) && Represents(p, t) && node in Nodes(t, path)
    ensures path <= node.path
    ensures q in node.dependsOn <==>
      path <= q && LeafAt(p, t.task, q[|path|..]) && MustFollow(p, t.task, node.path[|path|..], q[|path|..])
    decreases t
  {
    NodeIsLeaf(p, t, path, node);
    match t
    case LeafOf(_) =>
    case Branch(task, kids) =>
      var i, from := NodeOrigin(kids, path, node);
      assert KidRepresents(p, kids[i]);
      KidDependenciesExact(p, kids[i], path, from, q);
      SiblingDependenciesExact(p, t, path, i, q);
      if path <= q {
        MustFollowThroughStep(p, task, i, path, node.path, q);
        PathExtends(path, kids[i].step.name, q);
        if path + [kids[i].step.name] <= q { ResolveThroughStep(p, task, i, path, q); }
      }
  }

  lemma {:induction false} PathExtends(path: Path, name: string, q: Path)
    ensures path + [name] <= q <==> path < q && q[|path|] == name
  {
    if path < q && q[|path|] == name {
      assert q[..|path| + 1] == path + [name];
    }
  }

  lemma {:induction false} KidDependenciesExact(p: Program, kid: Kid, path: Path, node: FlatNode, q: Path)
    requires Validated(p) && KidRepresents(p, kid) && node in KidNodes(kid, path)
    ensures path + [kid.step.name] <= node.path
    ensures q in node.dependsOn <==>
      && path + [kid.step.name] <= q && LeafAt(p, kid.step.task, q[|path| + 1..])
      && MustFollow(p, kid.step.task, node.path[|path| + 1..], q[|path| + 1..])
    decreases kid
  {
    DependenciesExact(p, kid.tree, path + [kid.step.name], node, q);
  }

  /** The paths added to step `i` are the leaves under the siblings it names. */
  lemma {:induction false} SiblingDependenciesExact(p: Program, t: Tree, path: Path, i: nat, q: Path)
    requires Validated(p) && Represents(p, t) && t.Branch? && i < |t.kids|
    ensures q in DependencyPaths(t.kids, Parts(t.kids, path), i) <==>
      && path < q && q[|path|] in t.kids[i].step.dependsOn
      && LeafAt(p, t.task, q[|path|..])
  {
    var kids, parts := t.kids, Parts(t.kids, path);
    if q in DependencyPaths(kids, parts, i) {
      var j: nat, n: FlatNode :|
        j < |parts| && kids[j].step.name in kids[i].step.dependsOn && n in parts[j] && n.path == q;
      KidNodeIsLeaf(p, kids[j], path, n);
      ResolveThroughStep(p, t.task, j, path, q);
    }
    if path < q && q[|path|] in kids[i].step.dependsOn && LeafAt(p, t.task, q[|path|..]) {
      var j := KidOfLeaf(p, t, q[|path|..]);
      assert q[|path|..][1..] == q[|path| + 1..];
      var n := KidLeafHasNode(p, kids[j], path, q);
      assert n.path == q && n in parts[j];
    }
  }

  lemma {:induction false} StepIndexAt(steps: seq<Step>, i: nat)
    requires i < |steps| && StepNamesDistinct(steps)
    ensures StepIndex(steps, steps[i].name) == i
    decreases i
  {
    if i > 0 {
      assert steps[1..][i - 1] == steps[i];
      StepIndexAt(steps[1..], i - 1);
    }
  }

  lemma {:induction false} EmittedThroughStep(p: Program, task: TaskId, i: nat, path: Path, a: Path, b: Path)
    requires Validated(p) && task in p.tasks && p.tasks[task].Composite? && i < |p.tasks[task].steps|
    requires path + [p.tasks[task].steps[i].name] <= a && path + [p.tasks[task].steps[i].name] <= b
    requires EmittedBefore(p, p.tasks[task].steps[i].task, a[|path| + 1..], b[|path| + 1..])
    ensures EmittedBefore(p, task, a[|path|..], b[|path|..])
  {
    FindStepAt(p.tasks[task].steps, i);
    assert a[|path|..][0] == p.tasks[task].steps[i].name && a[|path|..][1..] == a[|path| + 1..];
    assert b[|path|..][0] == p.tasks[task].steps[i].name && b[|path|..][1..] == b[|path| + 1..];
  }

  lemma {:induction false} EmittedAcrossSteps(p: Program, task: TaskId, i: nat, j: nat, path: Path, a: Path, b: Path)
    requires Validated(p) && task in p.tasks && p.tasks[task].Composite? && i < j < |p.tasks[task].steps|
    requires path + [p.tasks[task].steps[i].name] <= a && path + [p.tasks[task].steps[j].name] <= b
    ensures EmittedBefore(p, task, a[|path|..], b[|path|..])
  {
    FindStepAt(p.tasks[task].steps, i);
    StepIndexAt(p.tasks[task].steps, i);
    StepIndexAt(p.tasks[task].steps, j);
    assert a[|path|..][0] == p.tasks[task].steps[i].name && b[|path|..][0] == p.tasks[task].steps[j].name;
  }

  ghost predicate InEmissionOrder(p: Program, task: TaskId, path: Path, a: FlatNode, b: FlatNode) {
    path <= a.path && path <= b.path && EmittedBefore(p, task, a.path[|path|..], b.path[|path|..])
  }

  /** Nodes come in depth-first emission order. */
  lemma {:induction false} NodesInEmissionOrder(p: Program, t: Tree, path: Path)
    requires Validated(p) && Represents(p, t)
    ensures forall i, j :: 0 <= i < j < |Nodes(t, path)| ==>
      InEmissionOrder(p, t.task, path, Nodes(t, path)[i], Nodes(t, path)[j])
    decreases t
  {
    match t
    case LeafOf(_) =>
    case Branch(task, kids) =>
      var linked: seq<seq<FlatNode>> := Linked(kids, Parts(kids, path), |kids|);
      forall k, i, j | 0 <= k < |linked| && 0 <= i < j < |linked[k]|
        ensures InEmissionOrder(p, task, path, linked[k][i], linked[k][j])
      {
        KidNodesInEmissionOrder(p, kids[k], path, i, j);
        KidPairInEmissionOrder(p, t, path, k, KidNodes(kids[k], path)[i], KidNodes(kids[k], path)[j]);
      }
      forall k, l, a, b | 0 <= k < l < |linked| && a in linked[k] && b in linked[l]
        ensures InEmissionOrder(p, task, path, a, b)
      {
        AcrossKidsInEmissionOrder(p, t, path, k, l, a, b);
      }
      ConcatPairwise(linked, (a, b) => InEmissionOrder(p, task, path, a, b));
  }

  lemma {:induction false} KidPairInEmissionOrder(p: Program, t: Tree, path: Path, k: nat, a: FlatNode, b: FlatNode)
    requires Validated(p) && Represents(p, t) && t.Branch? && k < |t.kids|
    requires InEmissionOrder(p, t.kids[k].step.task, path + [t.kids[k].step.name], a, b)
    ensures InEmissionOrder(p, t.task, path, a, b)
  {
    EmittedThroughStep(p, t.task, k, path, a.path, b.path);
  }

  lemma {:induction false} AcrossKidsInEmissionOrder(
      p: Program, t: Tree, path: Path, k: nat, l: nat, a: FlatNode, b: FlatNode)
    requires Validated(p) && Represents(p, t) && t.Branch? && k < l < |t.kids|
    requires a in Linked(t.kids, Parts(t.kids, path), |t.kids|)[k]
    requires b in Linked(t.kids, Parts(t.kids, path), |t.kids|)[l]
    ensures InEmissionOrder(p, t.task, path, a, b)
  {
    LinkedNodeIsUnder(p, t, path, k, a);
    LinkedNodeIsUnder(p, t, path, l, b);
    EmittedAcrossSteps(p, t.task, k, l, path, a.path, b.path);
  }

  lemma {:induction false} KidNodesInEmissionOrder(p: Program, kid: Kid, path: Path, i: nat, j: nat)
    requires Validated(p) && KidRepresents(p, kid) && i < j < |KidNodes(kid, path)|
    ensures InEmissionOrder(p, kid.step.task, path + [kid.step.name], KidNodes(kid, path)[i], KidNodes(kid, path)[j])
    decreases kid
  {
    NodesInEmissionOrder(p, kid.tree, path + [kid.step.name]);
  }

  lemma {:induction false} LinkedNodeIsUnder(p: Program, t: Tree, path: Path, k: nat, a: FlatNode)
    requires Validated(p) && Represents(p, t) && t.Branch? && k < |t.kids|
    requires a in Linked(t.kids, Parts(t.kids, path), |t.kids|)[k]
    ensures path + [p.tasks[t.task].steps[k].name] <= a.path
  {
    var linked := Linked(t.kids, Parts(t.kids, path), |t.kids|);
    var i :| 0 <= i < |linked[k]| && linked[k][i] == a;
    KidNodeIsLeaf(p, t.kids[k], path, KidNodes(t.kids[k], path)[i]);
  }
}
