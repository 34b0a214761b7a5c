/** What the order of flattened nodes guarantees, over the task structure alone. */
module PlanOrder {
  import opened Wrappers
  import opened Graphs
  import opened Ordering
  import opened Programs
  import opened Flattening
  import opened FlattenFacts
  import opened FlattenTheorems

  /** One node for each leaf occurrence of the task, with its task. */
  ghost predicate ListsLeavesOnce(p: Program, root: TaskId, out: seq<PlanNode>) {
    && (forall i, j :: 0 <= i < j < |out| ==> out[i].path != out[j].path)
    && (forall i :: 0 <= i < |out| ==> [root] <= out[i].path && LeafAt(p, root, out[i].path[1..]))
    && (forall i :: 0 <= i < |out| ==> Resolve(p, root, out[i].path[1..]) == Some(out[i].task))
    && (forall q :: [root] <= q && LeafAt(p, root, q[1..]) ==> exists i :: 0 <= i < |out| && out[i].path == q)
  }

  ghost predicate Follows(p: Program, root: TaskId, a: Path, b: Path) {
    [root] <= a && [root] <= b && MustFollow(p, root, a[1..], b[1..])
  }

  ghost predicate EmittedEarlier(p: Program, root: TaskId, a: Path, b: Path) {
    [root] <= a && [root] <= b && EmittedBefore(p, root, a[1..], b[1..])
  }

  /** Every leaf comes after all the leaves it must follow. */
  ghost predicate PlacesDependenciesFirst(p: Program, root: TaskId, out: seq<PlanNode>) {
    forall i, j :: 0 <= i < |out| && 0 <= j < |out| && Follows(p, root, out[i].path, out[j].path) ==> j < i
  }

  /** A leaf passed over by a later emitted one was waiting for something unplaced. */
  ghost predicate PicksEarliest(p: Program, root: TaskId, out: seq<PlanNode>) {
    forall i, j :: 0 <= i < j < |out| && EmittedEarlier(p, root, out[j].path, out[i].path) ==>
      exists k :: i <= k < |out| && Follows(p, root, out[j].path, out[k].path)
  }

  ghost predicate IsPlanOrder(p: Program, root: TaskId, out: seq<PlanNode>) {
    ListsLeavesOnce(p, root, out) && PlacesDependenciesFirst(p, root, out) && PicksEarliest(p, root, out)
  }

  /** The unfolded task, its nodes and their order behind one successful flattening. */
  ghost predicate IsFlattening(p: Program, root: TaskId, t: Tree, nodes: seq<FlatNode>, order: seq<Path>) {
    && Represents(p, t) && t.task == root && nodes == Nodes(t, [root]) && DistinctPaths(nodes)
    && Declared(DependencyGraph(nodes), Paths(nodes))
    && Order(Paths(nodes), DependencyGraph(nodes), {}) == Ok(order)
    && multiset(order) == multiset(Paths(nodes))
    && (forall q <- order :: q in Paths(nodes))
    && (forall i, j :: 0 <= i < j < |order| ==> order[i] != order[j])
  }

  lemma {:induction false} FlattenedParts(
      p: Program, root: TaskId)
      returns (t: Tree, nodes: seq<FlatNode>, order: seq<Path>)
    requires WellFormed(p) && Flattened(p, root).Ok?
    ensures IsFlattening(p, root, t, nodes, order) && Flattened(p, root).value == PlacedNodes(nodes, order)
  {
    t := Unfold(p, root, []).value;
    UnfoldRepresents(p, root, []);
    nodes := Nodes(t, [root]);
    OrderedPathsKnown(nodes);
    order := Order(Paths(nodes), DependencyGraph(nodes), {}).value;
    NodesDistinct(p, t, [root]);
    OrderIsPermutation(Paths(nodes), DependencyGraph(nodes), {});
    DistinctByMultiset(Paths(nodes), order);
  }

  lemma {:induction false} TaskAtNode(nodes: seq<FlatNode>, node: FlatNode)
    requires DistinctPaths(nodes) && node in nodes && node.path in Paths(nodes)
    ensures TaskAt(nodes, node.path) == node.task
    decreases |nodes|
  {
    if nodes[0] != node {
      assert node in nodes[1..];
      PathOfNode(nodes[1..], node);
      TaskAtNode(nodes[1..], node);
    }
  }

  lemma {:induction false} DistinctByMultiset<T>(a: seq<T>, b: seq<T>)
    requires multiset(a) == multiset(b)
    requires forall i, j :: 0 <= i < j < |a| ==> a[i] != a[j]
    ensures forall i, j :: 0 <= i < j < |b| ==> b[i] != b[j]
  {
    forall i, j | 0 <= i < j < |b| ensures b[i] != b[j] {
      if b[i] == b[j] {
        assert b == b[..i] + [b[i]] + b[i + 1..j] + [b[j]] + b[j + 1..];
        assert multiset(b)[b[i]] >= 2;
        SingleOccurrence(a, b[i]);
      }
    }
  }

  lemma {:induction false} SingleOccurrence<T>(a: seq<T>, x: T)
    requires forall i, j :: 0 <= i < j < |a| ==> a[i] != a[j]
    ensures multiset(a)[x] <= 1
    decreases |a|
  {
    if a != [] {
      SingleOccurrence(a[1..], x);
      assert a == [a[0]] + a[1..];
      if a[0] == x { assert x !in a[1..]; }
    }
  }

  lemma {:induction false} PlanNodeFacts(
      p: Program, root: TaskId, t: Tree, nodes: seq<FlatNode>, order: seq<Path>, i: nat)
    returns (node: FlatNode)
    requires WellFormed(p) && IsFlattening(p, root, t, nodes, order) && i < |order|
    ensures node in nodes && order[i] == node.path && [root] <= order[i]
    ensures order[i] in DependencyGraph(nodes) && DependencyGraph(nodes)[order[i]] == node.dependsOn
    ensures LeafAt(p, root, order[i][1..]) && Resolve(p, root, order[i][1..]) == Some(TaskAt(nodes, order[i]))
  {
    node := NodeAtPath(nodes, order[i]);
    GraphAt(nodes, node);
    TaskAtNode(nodes, node);
    NodeIsLeaf(p, t, [root], node);
  }

  lemma {:induction false} LeafIsPlaced(
      p: Program, root: TaskId, t: Tree, nodes: seq<FlatNode>, order: seq<Path>, q: Path)
      returns (i: nat)
    requires WellFormed(p) && IsFlattening(p, root, t, nodes, order) && [root] <= q && LeafAt(p, root, q[1..])
    ensures i < |order| && order[i] == q
  {
    var n := LeafHasNode(p, t, [root], q);
    PathOfNode(nodes, n);
    assert q in multiset(order);
    i :| 0 <= i < |order| && order[i] == q;
  }

  lemma {:induction false} DependencyIsFollowed(
      p: Program, root: TaskId, t: Tree, nodes: seq<FlatNode>, order: seq<Path>, i: nat, q: Path)
    requires WellFormed(p) && IsFlattening(p, root, t, nodes, order) && i < |order|
    ensures order[i] in DependencyGraph(nodes)
    ensures q in DependencyGraph(nodes)[order[i]] <==> Follows(p, root, order[i], q) && LeafAt(p, root, q[1..])
  {
    var node := PlanNodeFacts(p, root, t, nodes, order, i);
    DependenciesExact(p, t, [root], node, q);
  }

  lemma {:induction false} EmittedAsymmetric(p: Program, task: TaskId, a: Path, b: Path)
    requires EmittedBefore(p, task, a, b)
    ensures !EmittedBefore(p, task, b, a)
    decreases |a|
  {
    if a[0] == b[0] {
      EmittedAsymmetric(p, FindStep(p.tasks[task].steps, a[0]).value.task, a[1..], b[1..]);
    }
  }

  lemma {:induction false} NodesEmitted(p: Program, t: Tree, path: Path, i: nat, j: nat)
    requires Validated(p) && Represents(p, t) && i <= j < |Nodes(t, path)|
    ensures i == j || InEmissionOrder(p, t.task, path, Nodes(t, path)[i], Nodes(t, path)[j])
  {
    NodesInEmissionOrder(p, t, path);
  }

  lemma {:induction false} EmissionIndices(
      p: Program, root: TaskId, t: Tree, nodes: seq<FlatNode>, order: seq<Path>, q: Path, r: Path)
    returns (a: nat, b: nat)
    requires WellFormed(p) && IsFlattening(p, root, t, nodes, order) && q in order && r in order
    requires EmittedEarlier(p, root, q, r)
    ensures a < b < |nodes| && nodes[a].path == q && nodes[b].path == r
  {
    a :| 0 <= a < |nodes| && Paths(nodes)[a] == q;
    b :| 0 <= b < |nodes| && Paths(nodes)[b] == r;
    if b <= a {
      NodesEmitted(p, t, [root], b, a);
      EmittedAsymmetric(p, root, q[1..], r[1..]);
    }
  }

  lemma {:induction false} PlaceInPrefix<T>(s: seq<T>, n: nat, x: T) returns (k: nat)
    requires n <= |s| && x in Elements(s[..n])
    ensures k < n && s[k] == x
  {
    k :| 0 <= k < |s[..n]| && s[..n][k] == x;
  }

  lemma {:induction false} MissingFromPrefix<T>(s: seq<T>, n: nat, x: T)
    requires n <= |s| && x !in Elements(s[..n])
    ensures forall k :: 0 <= k < n ==> s[k] != x
  {
    forall k | 0 <= k < n ensures s[k] != x { assert s[..n][k] == s[k]; }
  }

  /** What a key passed over at position `i` was still waiting for. */
  lemma {:induction false} StillMissing<K>(
      keys: seq<K>, deps: map<K, set<K>>, order: seq<K>, i: nat, j: nat, a: nat, b: nat)
      returns (d: K)
    requires Declared(deps, keys) && Order(keys, deps, {}) == Ok(order)
    requires forall m, n :: 0 <= m < n < |keys| ==> keys[m] != keys[n]
    requires forall m, n :: 0 <= m < n < |order| ==> order[m] != order[n]
    requires i < j < |order| && a < b < |keys| && keys[a] == order[j] && keys[b] == order[i]
    ensures order[j] in deps && d in deps[order[j]] && forall k :: 0 <= k < i ==> order[k] != d
  {
    assert order[j] !in order[..i];
    OrderTakesEarliest(keys, deps, {}, order, i, a, b);
    d :| d in deps[order[j]] && d !in Elements(order[..i]);
    MissingFromPrefix(order, i, d);
  }

  lemma {:induction false} PassedOverWaits(
      p: Program, root: TaskId, t: Tree, nodes: seq<FlatNode>, order: seq<Path>, i: nat, j: nat)
    returns (k: nat)
    requires WellFormed(p) && IsFlattening(p, root, t, nodes, order) && i < j < |order|
    requires EmittedEarlier(p, root, order[j], order[i])
    ensures i <= k < |order| && Follows(p, root, order[j], order[k])
  {
    var deps := DependencyGraph(nodes);
    var a, b := EmissionIndices(p, root, t, nodes, order, order[j], order[i]);
    var d := StillMissing(Paths(nodes), deps, order, i, j, a, b);
    DependencyIsFollowed(p, root, t, nodes, order, j, d);
    k := LeafIsPlaced(p, root, t, nodes, order, d);
  }

  lemma {:induction false} LeavesListedOnce(p: Program, root: TaskId, t: Tree, nodes: seq<FlatNode>, order: seq<Path>)
    requires WellFormed(p) && IsFlattening(p, root, t, nodes, order)
    ensures ListsLeavesOnce(p, root, PlacedNodes(nodes, order))
  {
    var out := PlacedNodes(nodes, order);
    forall i: nat | i < |out|
      ensures [root] <= order[i] && LeafAt(p, root, order[i][1..])
      ensures Resolve(p, root, order[i][1..]) == Some(TaskAt(nodes, order[i]))
    {
      var node := PlanNodeFacts(p, root, t, nodes, order, i);
    }
    forall q | [root] <= q && LeafAt(p, root, q[1..]) ensures exists i :: 0 <= i < |out| && out[i].path == q {
      var i := LeafIsPlaced(p, root, t, nodes, order, q);
      assert out[i].path == q;
    }
  }

  lemma {:induction false} DependenciesPlacedFirst(
      p: Program, root: TaskId, t: Tree, nodes: seq<FlatNode>, order: seq<Path>)
    requires WellFormed(p) && IsFlattening(p, root, t, nodes, order)
    ensures PlacesDependenciesFirst(p, root, PlacedNodes(nodes, order))
  {
    OrderRespects(Paths(nodes), DependencyGraph(nodes), {});
    forall i: nat, j: nat | i < |order| && j < |order| && Follows(p, root, order[i], order[j]) ensures j < i {
      var node := PlanNodeFacts(p, root, t, nodes, order, j);
      DependencyIsFollowed(p, root, t, nodes, order, i, order[j]);
      var k := PlaceInPrefix(order, i, order[j]);
    }
  }

  /** A successful flattening is the plan order of the task. */
  lemma {:induction false} FlattenedIsPlanOrder(p: Program, root: TaskId)
    requires WellFormed(p) && Flattened(p, root).Ok?
    ensures IsPlanOrder(p, root, Flattened(p, root).value)
  {
    var t, nodes, order := FlattenedParts(p, root);
    var out := PlacedNodes(nodes, order);
    LeavesListedOnce(p, root, t, nodes, order);
    DependenciesPlacedFirst(p, root, t, nodes, order);
    forall i: nat, j: nat | i < j < |out| && EmittedEarlier(p, root, out[j].path, out[i].path)
      ensures exists k :: i <= k < |out| && Follows(p, root, out[j].path, out[k].path)
    {
      var k := PassedOverWaits(p, root, t, nodes, order, i, j);
      assert Follows(p, root, out[j].path, out[k].path);
    }
  }
}
