/** When flattening succeeds: the planner's two cycle checks reject exactly the
    programs whose task structure is cyclic somewhere below the root. */
module FlattenTheorems {
  import opened Graphs
  import opened Ordering
  import opened Programs
  import opened Flattening
  import opened FlattenFacts

  // ---- Unfolding succeeds exactly when no reachable task reaches itself ----

  ghost predicate NoReachableCycle(p: Program, root: TaskId) {
    forall c :: Connects(TaskGraph(p), root, c) ==> !Reaches(TaskGraph(p), c, c)
  }

  lemma {:induction false} StepIsEdge(p: Program, task: TaskId, i: nat)
    requires ReferencesResolve(p) && task in p.tasks && p.tasks[task].Composite? && i < |p.tasks[task].steps|
    ensures p.tasks[task].steps[i].task in TaskGraph(p) && p.tasks[task].steps[i].task in TaskGraph(p)[task]
  {
    assert p.tasks[task].steps[i] in p.tasks[task].steps;
  }

  lemma {:induction false} AcyclicUnfolds(p: Program, task: TaskId, visiting: seq<TaskId>)
    requires ReferencesResolve(p) && task in p.tasks && NoReachableCycle(p, task)
    requires forall v <- visiting :: Reaches(TaskGraph(p), v, task)
    ensures Unfold(p, task, visiting).Ok?
    decreases p.tasks.Keys - Elements(visiting), 0, 0
  {
    if p.tasks[task].Composite? {
      ConnectsSelf(TaskGraph(p), task);
      assert task !in visiting;
      Deeper(p, task, visiting);
      AcyclicStepsUnfold(p, task, |p.tasks[task].steps|, visiting + [task]);
      assert p.tasks[task].steps[..|p.tasks[task].steps|] == p.tasks[task].steps;
    }
  }

  lemma {:induction false} AcyclicStepsUnfold(p: Program, task: TaskId, n: nat, visiting: seq<TaskId>)
    requires ReferencesResolve(p) && task in p.tasks && p.tasks[task].Composite? && n <= |p.tasks[task].steps|
    requires NoReachableCycle(p, task) && forall v <- visiting :: v == task || Reaches(TaskGraph(p), v, task)
    ensures UnfoldSteps(p, p.tasks[task].steps[..n], visiting).Ok?
    decreases p.tasks.Keys - Elements(visiting), 1, n
  {
    if n > 0 {
      var g, steps := TaskGraph(p), p.tasks[task].steps;
      AcyclicStepsUnfold(p, task, n - 1, visiting);
      assert steps[..n][..n - 1] == steps[..n - 1];
      StepIsEdge(p, task, n - 1);
      var child := steps[n - 1].task;
      forall v | v in visiting ensures Reaches(g, v, child) {
        if v == task { EdgeReaches(g, task, child); } else { StepReaches(g, v, task, child); }
      }
      forall c | Connects(g, child, c) ensures !Reaches(g, c, c) { StepConnects(g, task, child, c); }
      AcyclicUnfolds(p, child, visiting);
    }
  }

  lemma {:induction false} StepUnfolds(p: Program, steps: seq<Step>, visiting: seq<TaskId>, i: nat)
    requires UnfoldSteps(p, steps, visiting).Ok? && i < |steps|
    ensures Unfold(p, steps[i].task, visiting).Ok?
    decreases |steps|
  {
    if i < |steps| - 1 { StepUnfolds(p, steps[..|steps| - 1], visiting, i); }
  }

  /** Every task on a walk unfolds too, below all the composites passed. */
  lemma {:induction false} UnfoldsAlongWalk(
      p: Program, walk: seq<TaskId>, visiting: seq<TaskId>)
      returns (deeper: seq<TaskId>)
    requires IsWalk(TaskGraph(p), walk) && Unfold(p, walk[0], visiting).Ok?
    ensures Unfold(p, walk[|walk| - 1], deeper).Ok?
    ensures Elements(visiting) <= Elements(deeper) && (|walk| >= 2 ==> walk[0] in deeper)
    decreases |walk|
  {
    if |walk| == 1 {
      deeper := visiting;
    } else {
      assert walk[1] in TaskGraph(p)[walk[0]];
      var steps := p.tasks[walk[0]].steps;
      var i :| 0 <= i < |steps| && steps[i].task == walk[1];
      StepUnfolds(p, steps, visiting + [walk[0]], i);
      var tail := walk[1..];
      forall k | 0 <= k < |tail| - 1 ensures tail[k + 1] in TaskGraph(p)[tail[k]] {
        assert walk[k + 2] in TaskGraph(p)[walk[k + 1]];
      }
      deeper := UnfoldsAlongWalk(p, tail, visiting + [walk[0]]);
      assert walk[0] in Elements(visiting + [walk[0]]);
    }
  }

  lemma {:induction false} CompositeNotVisiting(p: Program, c: TaskId, child: TaskId, visiting: seq<TaskId>)
    requires Unfold(p, c, visiting).Ok? && child in TaskGraph(p)[c]
    ensures c !in visiting
  {
  }

  lemma {:induction false} UnfoldedHasNoCycle(p: Program, root: TaskId)
    requires Unfold(p, root, []).Ok?
    ensures NoReachableCycle(p, root)
  {
    var g := TaskGraph(p);
    forall c | Connects(g, root, c) ensures !Reaches(g, c, c) {
      if Reaches(g, c, c) {
        var to :| IsWalk(g, to) && to[0] == root && to[|to| - 1] == c;
        var round :| IsWalk(g, round) && |round| >= 2 && round[0] == c && round[|round| - 1] == c;
        var above := UnfoldsAlongWalk(p, to, []);
        var again := UnfoldsAlongWalk(p, round, above);
        CompositeNotVisiting(p, c, round[1], again);
      }
    }
  }

  lemma {:induction false} UnfoldsIffNoReachableCycle(p: Program, root: TaskId)
    requires ReferencesResolve(p) && root in p.tasks
    ensures Unfold(p, root, []).Ok? <==> NoReachableCycle(p, root)
  {
    if NoReachableCycle(p, root) { AcyclicUnfolds(p, root, []); }
    if Unfold(p, root, []).Ok? { UnfoldedHasNoCycle(p, root); }
  }

  // ---- Flattened acyclicity is hierarchical acyclicity ----

  ghost predicate SiblingsAcyclic(p: Program, t: Tree)
    requires Represents(p, t)
    decreases t
  {
    match t
    case LeafOf(_) => true
    case Branch(task, kids) =>
      && Acyclic(SiblingGraph(p.tasks[task].steps))
      && forall i :: 0 <= i < |kids| ==> KidRepresents(p, kids[i]) && KidSiblingsAcyclic(p, kids[i])
  }

  ghost predicate KidSiblingsAcyclic(p: Program, kid: Kid)
    requires KidRepresents(p, kid)
    decreases kid
  {
    SiblingsAcyclic(p, kid.tree)
  }

  lemma {:induction false} GraphAt(nodes: seq<FlatNode>, node: FlatNode)
    requires DistinctPaths(nodes) && node in nodes
    ensures node.path in DependencyGraph(nodes) && DependencyGraph(nodes)[node.path] == node.dependsOn
    decreases |nodes|
  {
    var last := |nodes| - 1;
    var before := nodes[..last];
    if nodes[last] != node {
      assert node in before;
      GraphAt(before, node);
    }
    assert node.path in Paths(nodes) by {
      var i :| 0 <= i < |nodes| && nodes[i] == node;
      assert Paths(nodes)[i] == node.path;
    }
  }

  lemma {:induction false} NodeAtPath(nodes: seq<FlatNode>, q: Path) returns (node: FlatNode)
    requires q in Paths(nodes)
    ensures node in nodes && node.path == q
  {
    var i :| 0 <= i < |nodes| && Paths(nodes)[i] == q;
    node := nodes[i];
  }

  lemma {:induction false} PathOfNode(nodes: seq<FlatNode>, node: FlatNode)
    requires node in nodes
    ensures node.path in Paths(nodes)
  {
    var i :| 0 <= i < |nodes| && nodes[i] == node;
    assert Paths(nodes)[i] == node.path;
  }

  /** Dependencies never leave the nodes of the occurrence. */
  lemma {:induction false} DependencyIsEmitted(p: Program, kid: Kid, path: Path, node: FlatNode, q: Path)
    requires Validated(p) && KidRepresents(p, kid) && node in KidNodes(kid, path) && q in node.dependsOn
    ensures q in Paths(KidNodes(kid, path))
  {
    KidDependenciesExact(p, kid, path, node, q);
    PathExtends(path, kid.step.name, q);
    var n := KidLeafHasNode(p, kid, path, q);
    PathOfNode(KidNodes(kid, path), n);
  }

  ghost predicate Waits(node: FlatNode, x: set<Path>) {
    node.dependsOn * x == {}
  }

  /** In any nonempty set of nodes one waits for none of the others. */
  lemma {:induction false} FlatSink(p: Program, t: Tree, path: Path, x: set<Path>) returns (node: FlatNode)
    requires WellFormed(p) && Represents(p, t) && SiblingsAcyclic(p, t)
    requires x != {} && x <= Elements(Paths(Nodes(t, path)))
    ensures node in Nodes(t, path) && node.path in x && Waits(node, x)
    decreases t
  {
    var some :| some in x;
    var any := NodeAtPath(Nodes(t, path), some);
    match t
    case LeafOf(_) =>
      node := any;
    case Branch(task, kids) =>
      AcyclicHasSinks(SiblingGraph(p.tasks[task].steps));
      SiblingGraphOfKids(p, t);
      var i := MinimalStep(kids, SiblingGraph(p.tasks[task].steps), path, x, any);
      var within := x * Elements(Paths(KidNodes(kids[i], path)));
      assert Touches(kids[i], path, x);
      assert KidRepresents(p, kids[i]) && KidSiblingsAcyclic(p, kids[i]);
      var from := KidFlatSink(p, kids[i], path, within);
      node := NodeDestination(kids, path, i, from);
      forall d | d in from.dependsOn ensures d !in x {
        DependencyIsEmitted(p, kids[i], path, from, d);
        assert d !in from.dependsOn * within;
      }
  }

  lemma {:induction false} KidFlatSink(p: Program, kid: Kid, path: Path, x: set<Path>) returns (node: FlatNode)
    requires WellFormed(p) && KidRepresents(p, kid) && KidSiblingsAcyclic(p, kid)
    requires x != {} && x <= Elements(Paths(KidNodes(kid, path)))
    ensures node in KidNodes(kid, path) && node.path in x && Waits(node, x)
    decreases kid
  {
    node := FlatSink(p, kid.tree, path + [kid.step.name], x);
  }

  ghost predicate Touches(kid: Kid, path: Path, x: set<Path>) {
    x * Elements(Paths(KidNodes(kid, path))) != {}
  }

  lemma {:induction false} TouchedBy(kid: Kid, path: Path, x: set<Path>, node: FlatNode)
    requires node in KidNodes(kid, path) && node.path in x
    ensures Touches(kid, path, x)
  {
    PathOfNode(KidNodes(kid, path), node);
    assert node.path in x * Elements(Paths(KidNodes(kid, path)));
  }

  /** The sibling graph seen from the kids of an occurrence. */
  ghost predicate IsSiblingGraph(kids: seq<Kid>, g: map<string, set<string>>) {
    && (forall k :: 0 <= k < |kids| ==> KidNames(kids)[k] in g)
    && (forall name :: name in g ==> name in KidNames(kids))
    && (forall i :: 0 <= i < |kids| ==>
          forall d :: d in g[KidNames(kids)[i]] <==> d in kids[i].step.dependsOn)
    && (forall i :: 0 <= i < |kids| ==> forall d <- kids[i].step.dependsOn :: d in KidNames(kids))
  }

  lemma {:induction false} SiblingGraphOfKids(p: Program, t: Tree)
    requires WellFormed(p) && Represents(p, t) && t.Branch?
    ensures IsSiblingGraph(t.kids, SiblingGraph(p.tasks[t.task].steps))
  {
    var kids, steps := t.kids, p.tasks[t.task].steps;
    var g := SiblingGraph(steps);
    forall k | 0 <= k < |kids| ensures kids[k].step in steps && steps[k] == kids[k].step {}
    forall name | name in StepNames(steps) ensures name in KidNames(kids) {
      var s :| s in steps && s.name == name;
      var k :| 0 <= k < |steps| && steps[k] == s;
      assert KidNames(kids)[k] == name;
    }
    forall i, d | 0 <= i < |kids| ensures d in g[KidNames(kids)[i]] <==> d in kids[i].step.dependsOn {
      if d in g[KidNames(kids)[i]] { SiblingEdge(steps, i, d); }
    }
  }

  lemma {:induction false} SiblingEdge(steps: seq<Step>, i: nat, d: string)
    requires i < |steps| && StepNamesDistinct(steps)
    requires steps[i].name in SiblingGraph(steps) && d in SiblingGraph(steps)[steps[i].name]
    ensures d in steps[i].dependsOn
  {
    var s :| s in steps && s.name == steps[i].name && d in s.dependsOn;
    var k :| 0 <= k < |steps| && steps[k] == s;
    assert k == i;
  }

  /** Among the steps with nodes in the set, one depends on no other of them. */
  lemma {:induction false} MinimalStep(
      kids: seq<Kid>, g: map<string, set<string>>, path: Path, x: set<Path>, any: FlatNode)
    returns (i: nat)
    requires HasSinks(g) && IsSiblingGraph(kids, g)
    requires any in Concat(Linked(kids, Parts(kids, path), |kids|)) && any.path in x
    ensures i < |kids| && Touches(kids[i], path, x)
    ensures DependencyPaths(kids, Parts(kids, path), i) * x == {}
  {
    var chosen := set k: nat | k < |kids| && Touches(kids[k], path, x);
    var k, from := NodeOrigin(kids, path, any);
    TouchedBy(kids[k], path, x, from);
    i := MinimalIndex(g, KidNames(kids), chosen, k);
    forall j: nat | j < |kids| && Touches(kids[j], path, x) ensures KidNames(kids)[j] !in kids[i].step.dependsOn {
      assert j in chosen;
    }
    UntouchedDependencies(kids, path, x, i);
  }

  lemma {:induction false} UntouchedDependencies(kids: seq<Kid>, path: Path, x: set<Path>, i: nat)
    requires i < |kids|
    requires forall j: nat :: j < |kids| && Touches(kids[j], path, x) ==> KidNames(kids)[j] !in kids[i].step.dependsOn
    ensures DependencyPaths(kids, Parts(kids, path), i) * x == {}
  {
    forall d | d in DependencyPaths(kids, Parts(kids, path), i) ensures d !in x {
      if d in x { var j := TouchedSibling(kids, path, x, i, d); }
    }
  }

  lemma {:induction false} TouchedSibling(kids: seq<Kid>, path: Path, x: set<Path>, i: nat, d: Path) returns (j: nat)
    requires i < |kids| && d in x && d in DependencyPaths(kids, Parts(kids, path), i)
    ensures j < |kids| && Touches(kids[j], path, x) && KidNames(kids)[j] in kids[i].step.dependsOn
  {
    var parts := Parts(kids, path);
    var n: FlatNode;
    j, n :| j < |parts| && kids[j].step.name in kids[i].step.dependsOn && n in parts[j] && n.path == d;
    TouchedBy(kids[j], path, x, n);
  }

  lemma {:induction false} FlatAcyclic(p: Program, t: Tree, path: Path)
    requires WellFormed(p) && Represents(p, t) && SiblingsAcyclic(p, t)
    ensures Acyclic(DependencyGraph(Nodes(t, path)))
  {
    var nodes := Nodes(t, path);
    var g := DependencyGraph(nodes);
    NodesDistinct(p, t, path);
    forall x: set<Path> | x != {} && x <= g.Keys ensures exists v :: IsSink(g, x, v) {
      var node := FlatSink(p, t, path, x);
      GraphAt(nodes, node);
      assert forall d :: d in node.dependsOn && d in x ==> d in node.dependsOn * x;
      assert IsSink(g, x, node.path);
    }
    SinksAcyclic(g);
  }

  /** The nodes of one step keep at least their own dependencies when linked. */
  lemma {:induction false} KidGraphAcyclic(p: Program, t: Tree, path: Path, i: nat)
    requires Validated(p) && Represents(p, t) && t.Branch? && i < |t.kids|
    requires Acyclic(DependencyGraph(Nodes(t, path)))
    ensures KidRepresents(p, t.kids[i]) && Acyclic(DependencyGraph(KidNodes(t.kids[i], path)))
  {
    var part := KidNodes(t.kids[i], path);
    var small, big := DependencyGraph(part), DependencyGraph(Nodes(t, path));
    assert KidRepresents(p, t.kids[i]);
    KidNodesDistinct(p, t.kids[i], path);
    NodesDistinct(p, t, path);
    forall q | q in small ensures q in big && small[q] <= big[q] {
      var from := NodeAtPath(part, q);
      var node := NodeDestination(t.kids, path, i, from);
      GraphAt(part, from);
      GraphAt(Nodes(t, path), node);
    }
    SubgraphAcyclic(small, big);
  }

  /** One leaf of each step stands for the step, so sibling cycles show up. */
  lemma {:induction false} RootSiblingsAcyclic(p: Program, t: Tree, path: Path)
    requires WellFormed(p) && Represents(p, t) && t.Branch?
    requires Acyclic(DependencyGraph(Nodes(t, path)))
    ensures Acyclic(SiblingGraph(p.tasks[t.task].steps))
  {
    var g, flat := SiblingGraph(p.tasks[t.task].steps), DependencyGraph(Nodes(t, path));
    AcyclicHasSinks(flat);
    SiblingGraphOfKids(p, t);
    var reps := Representatives(p, t, t.kids, path, flat, |t.kids|);
    forall busy: set<string> | busy != {} && busy <= g.Keys ensures exists v :: IsSink(g, busy, v) {
      var v := SiblingSink(t.kids, g, path, flat, reps, busy);
    }
    SinksAcyclic(g);
  }

  lemma {:induction false} FirstLeaf(p: Program, t: Tree, path: Path, k: nat) returns (from: FlatNode)
    requires WellFormed(p) && Represents(p, t) && t.Branch? && k < |t.kids|
    ensures KidNodes(t.kids[k], path) != [] && from == KidNodes(t.kids[k], path)[0]
    ensures var g := DependencyGraph(Nodes(t, path));
      from.path in g && DependencyPaths(t.kids, Parts(t.kids, path), k) <= g[from.path]
  {
    assert KidRepresents(p, t.kids[k]);
    KidNodesNonempty(p, t.kids[k], path);
    from := KidNodes(t.kids[k], path)[0];
    var node := NodeDestination(t.kids, path, k, from);
    NodesDistinct(p, t, path);
    GraphAt(Nodes(t, path), node);
  }

  ghost predicate Representative(kid: Kid, path: Path, q: Path) {
    exists n :: n in KidNodes(kid, path) && n.path == q
  }

  ghost predicate StandsForKid(kids: seq<Kid>, path: Path, g: map<Path, set<Path>>, k: nat, q: Path)
    requires k < |kids|
  {
    q in g && DependencyPaths(kids, Parts(kids, path), k) <= g[q] && Representative(kids[k], path, q)
  }

  lemma {:induction false} OneRepresentative(p: Program, t: Tree, path: Path, k: nat) returns (q: Path)
    requires WellFormed(p) && Represents(p, t) && t.Branch? && k < |t.kids|
    ensures StandsForKid(t.kids, path, DependencyGraph(Nodes(t, path)), k, q)
  {
    var from := FirstLeaf(p, t, path, k);
    q := KidNodes(t.kids[k], path)[0].path;
  }

  /** The first leaf of every step, as its representative in the flat graph. */
  lemma {:induction false} Representatives(
      p: Program, t: Tree, kids: seq<Kid>, path: Path, g: map<Path, set<Path>>, n: nat)
    returns (reps: seq<Path>)
    requires WellFormed(p) && Represents(p, t) && t.Branch? && kids == t.kids && n <= |kids|
    requires g == DependencyGraph(Nodes(t, path))
    ensures |reps| == n
    ensures forall k :: 0 <= k < n ==> StandsForKid(kids, path, g, k, reps[k])
    decreases n
  {
    hide WellFormed, Represents, StandsForKid, DependencyGraph, Nodes;
    reps := [];
    if n > 0 {
      reps := Representatives(p, t, kids, path, g, n - 1);
      var last := OneRepresentative(p, t, path, n - 1);
      AnotherRepresentative(kids, path, g, reps, last);
      reps := reps + [last];
    }
  }

  lemma {:induction false} AnotherRepresentative(
      kids: seq<Kid>, path: Path, g: map<Path, set<Path>>, reps: seq<Path>, q: Path)
    requires |reps| < |kids| && StandsForKid(kids, path, g, |reps|, q)
    requires forall k :: 0 <= k < |reps| ==> StandsForKid(kids, path, g, k, reps[k])
    ensures forall k :: 0 <= k < |reps| + 1 ==> StandsForKid(kids, path, g, k, (reps + [q])[k])
  {
  }

  /** The step whose representative waits for no other chosen step's. */
  lemma {:induction false} MinimalRepresentative(
      kids: seq<Kid>, path: Path, flat: map<Path, set<Path>>, reps: seq<Path>, busy: set<string>, some: nat)
    returns (i: nat)
    requires HasSinks(flat) && |reps| == |kids|
    requires forall k :: 0 <= k < |kids| ==> StandsForKid(kids, path, flat, k, reps[k])
    requires some < |kids| && KidNames(kids)[some] in busy
    ensures i < |kids| && KidNames(kids)[i] in busy
    ensures forall d <- kids[i].step.dependsOn :: d in busy ==> d !in KidNames(kids)
  {
    var chosen := set k: nat | k < |kids| && KidNames(kids)[k] in busy;
    i := MinimalIndex(flat, reps, chosen, some);
    forall j: nat | j < |kids| && KidNames(kids)[j] in kids[i].step.dependsOn ensures reps[j] in flat[reps[i]] {
      RepresentativeIsDependency(kids, path, i, j, reps[j]);
    }
    forall j: nat | j < |kids| && KidNames(kids)[j] in busy ensures KidNames(kids)[j] !in kids[i].step.dependsOn {
      assert j in chosen;
    }
  }

  lemma {:induction false} RepresentativeIsDependency(kids: seq<Kid>, path: Path, i: nat, j: nat, q: Path)
    requires i < |kids| && j < |kids| && kids[j].step.name in kids[i].step.dependsOn && Representative(kids[j], path, q)
    ensures q in DependencyPaths(kids, Parts(kids, path), i)
  {
    var n :| n in KidNodes(kids[j], path) && n.path == q;
    assert n in Parts(kids, path)[j];
  }

  lemma {:induction false} SiblingSink(
    kids: seq<Kid>, g: map<string, set<string>>, path: Path, flat: map<Path, set<Path>>,
    reps: seq<Path>, busy: set<string>)
    returns (v: string)
    requires HasSinks(flat) && |reps| == |kids| && IsSiblingGraph(kids, g)
    requires forall k :: 0 <= k < |kids| ==> StandsForKid(kids, path, flat, k, reps[k])
    requires busy != {} && busy <= g.Keys
    ensures IsSink(g, busy, v)
  {
    var name :| name in busy;
    var at :| 0 <= at < |kids| && KidNames(kids)[at] == name;
    var i := MinimalRepresentative(kids, path, flat, reps, busy, at);
    v := KidNames(kids)[i];
  }

  lemma {:induction false} FlatAcyclicSiblings(p: Program, t: Tree, path: Path)
    requires WellFormed(p) && Represents(p, t) && Acyclic(DependencyGraph(Nodes(t, path)))
    ensures SiblingsAcyclic(p, t)
    decreases t
  {
    match t
    case LeafOf(_) =>
    case Branch(_, kids) =>
      RootSiblingsAcyclic(p, t, path);
      forall i | 0 <= i < |kids| ensures KidRepresents(p, kids[i]) && KidSiblingsAcyclic(p, kids[i]) {
        KidGraphAcyclic(p, t, path, i);
        KidFlatAcyclicSiblings(p, kids[i], path);
      }
  }

  lemma {:induction false} KidFlatAcyclicSiblings(p: Program, kid: Kid, path: Path)
    requires WellFormed(p) && KidRepresents(p, kid) && Acyclic(DependencyGraph(KidNodes(kid, path)))
    ensures KidSiblingsAcyclic(p, kid)
    decreases kid
  {
    FlatAcyclicSiblings(p, kid.tree, path + [kid.step.name]);
  }

  /** Every reachable composite orders its own steps. */
  ghost predicate ReachableSiblingsAcyclic(p: Program, root: TaskId) {
    forall c :: Connects(TaskGraph(p), root, c) && p.tasks[c].Composite? ==> Acyclic(SiblingGraph(p.tasks[c].steps))
  }

  lemma {:induction false} SiblingsAcyclicAlongWalk(p: Program, t: Tree, walk: seq<TaskId>)
    requires Represents(p, t) && SiblingsAcyclic(p, t)
    requires IsWalk(TaskGraph(p), walk) && walk[0] == t.task
    ensures var c := walk[|walk| - 1]; p.tasks[c].Composite? ==> Acyclic(SiblingGraph(p.tasks[c].steps))
    decreases |walk|
  {
    if |walk| > 1 {
      assert walk[1] in TaskGraph(p)[walk[0]];
      var steps := p.tasks[t.task].steps;
      var i :| 0 <= i < |steps| && steps[i].task == walk[1];
      assert KidRepresents(p, t.kids[i]) && KidSiblingsAcyclic(p, t.kids[i]);
      var tail := walk[1..];
      forall k | 0 <= k < |tail| - 1 ensures tail[k + 1] in TaskGraph(p)[tail[k]] {
        assert walk[k + 2] in TaskGraph(p)[walk[k + 1]];
      }
      SiblingsAcyclicAlongWalk(p, t.kids[i].tree, tail);
    }
  }

  lemma {:induction false} ReachableGivesSiblings(p: Program, t: Tree)
    requires ReferencesResolve(p) && Represents(p, t) && ReachableSiblingsAcyclic(p, t.task)
    ensures SiblingsAcyclic(p, t)
    decreases t
  {
    var g := TaskGraph(p);
    ConnectsSelf(g, t.task);
    match t
    case LeafOf(_) =>
    case Branch(task, kids) =>
      forall i | 0 <= i < |kids| ensures KidRepresents(p, kids[i]) && KidSiblingsAcyclic(p, kids[i]) {
        assert KidRepresents(p, kids[i]);
        StepIsEdge(p, task, i);
        var child := kids[i].step.task;
        forall c | Connects(g, child, c) && p.tasks[c].Composite? ensures Acyclic(SiblingGraph(p.tasks[c].steps)) {
          StepConnects(g, task, child, c);
        }
        KidReachableGivesSiblings(p, kids[i]);
      }
  }

  lemma {:induction false} KidReachableGivesSiblings(p: Program, kid: Kid)
    requires ReferencesResolve(p) && KidRepresents(p, kid) && ReachableSiblingsAcyclic(p, kid.step.task)
    ensures KidSiblingsAcyclic(p, kid)
    decreases kid
  {
    ReachableGivesSiblings(p, kid.tree);
  }

  lemma {:induction false} SiblingsIffReachable(p: Program, t: Tree)
    requires ReferencesResolve(p) && Represents(p, t)
    ensures SiblingsAcyclic(p, t) <==> ReachableSiblingsAcyclic(p, t.task)
  {
    var g := TaskGraph(p);
    if SiblingsAcyclic(p, t) {
      forall c | Connects(g, t.task, c) && p.tasks[c].Composite? ensures Acyclic(SiblingGraph(p.tasks[c].steps)) {
        var walk :| IsWalk(g, walk) && walk[0] == t.task && walk[|walk| - 1] == c;
        SiblingsAcyclicAlongWalk(p, t, walk);
      }
    }
    if ReachableSiblingsAcyclic(p, t.task) { ReachableGivesSiblings(p, t); }
  }

  lemma {:induction false} DependencyGraphClosed(p: Program, t: Tree, path: Path)
    requires Validated(p) && Represents(p, t)
    ensures Closed(DependencyGraph(Nodes(t, path)))
  {
    var nodes := Nodes(t, path);
    var g := DependencyGraph(nodes);
    NodesDistinct(p, t, path);
    forall q | q in g ensures g[q] <= g.Keys {
      var node := NodeAtPath(nodes, q);
      GraphAt(nodes, node);
      forall d | d in g[q] ensures d in g.Keys {
        DependenciesExact(p, t, path, node, d);
        var n := LeafHasNode(p, t, path, d);
        PathOfNode(nodes, n);
      }
    }
  }

  /** Flattening a declared task succeeds exactly when no reachable task
      reaches itself and every reachable composite orders its steps. */
  lemma {:induction false} FlattenSucceedsExactly(p: Program, root: TaskId)
    requires WellFormed(p) && root in p.tasks
    ensures Flattened(p, root).Ok? <==> NoReachableCycle(p, root) && ReachableSiblingsAcyclic(p, root)
  {
    UnfoldsIffNoReachableCycle(p, root);
    if Unfold(p, root, []).Ok? {
      var t := Unfold(p, root, []).value;
      var nodes := Nodes(t, [root]);
      UnfoldRepresents(p, root, []);
      OrderedPathsKnown(nodes);
      DependencyGraphClosed(p, t, [root]);
      OrderIffAcyclic(Paths(nodes), DependencyGraph(nodes));
      SiblingsIffReachable(p, t);
      if SiblingsAcyclic(p, t) { FlatAcyclic(p, t, [root]); }
      if Acyclic(DependencyGraph(nodes)) { FlatAcyclicSiblings(p, t, [root]); }
    }
  }
}
