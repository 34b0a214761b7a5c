/** The loops of `flatten` and `emit` (execution/plan.rs): one growing node
    list, step ranges remembered by name, and sibling dependencies applied to
    whole ranges afterwards. */
module Emission {
  import opened Wrappers
  import opened Graphs
  import opened Ordering
  import opened Programs
  import opened Flattening

  /** Where each part starts in the concatenation, and where the last one ends. */
  function Offsets<T>(parts: seq<seq<T>>): (r: seq<nat>)
    ensures |r| == |parts| + 1 && r[|parts|] == |Concat(parts)|
  {
    if parts == [] then [0]
    else
      var last := |parts| - 1;
      var before := Offsets(parts[..last]);
      before + [before[last] + |parts[last]|]
  }

  lemma {:induction false} OffsetsByLength<T>(a: seq<seq<T>>, b: seq<seq<T>>)
    requires |a| == |b| && forall i :: 0 <= i < |a| ==> |a[i]| == |b[i]|
    ensures Offsets(a) == Offsets(b)
    decreases |a|
  {
    if a != [] { OffsetsByLength(a[..|a| - 1], b[..|b| - 1]); }
  }

  /** Part `j` sits at its offset, whatever follows. */
  lemma {:induction false} ConcatAt<T>(parts: seq<seq<T>>, j: nat)
    requires j < |parts|
    ensures Offsets(parts)[j + 1] == Offsets(parts)[j] + |parts[j]| <= |Concat(parts)|
    ensures Concat(parts)[Offsets(parts)[j]..Offsets(parts)[j + 1]] == parts[j]
    decreases |parts|
  {
    var last := |parts| - 1;
    var front := parts[..last];
    assert Concat(parts) == Concat(front) + parts[last];
    if j < last {
      ConcatAt(front, j);
      assert Offsets(parts)[j] == Offsets(front)[j] && Offsets(parts)[j + 1] == Offsets(front)[j + 1];
    }
  }

  lemma {:induction false} ConcatUpdate<T>(parts: seq<seq<T>>, j: nat, part: seq<T>)
    requires j < |parts| && |part| == |parts[j]|
    ensures Offsets(parts)[j] + |part| == Offsets(parts)[j + 1] <= |Concat(parts)|
    ensures Concat(parts[j := part]) ==
      Concat(parts)[..Offsets(parts)[j]] + part + Concat(parts)[Offsets(parts)[j + 1]..]
    decreases |parts|
  {
    var last := |parts| - 1;
    var changed := parts[j := part];
    ConcatAt(parts, j);
    if j < last {
      assert changed[..last] == parts[..last][j := part];
      ConcatUpdate(parts[..last], j, part);
    } else {
      assert changed[..last] == parts[..last];
    }
  }

  lemma {:induction false} StepsErrorEarly(p: Program, steps: seq<Step>, visiting: seq<TaskId>, i: nat)
    requires i <= |steps| && UnfoldSteps(p, steps[..i], visiting).Err?
    ensures UnfoldSteps(p, steps, visiting) == UnfoldSteps(p, steps[..i], visiting)
    decreases |steps|
  {
    if i == |steps| {
      assert steps[..i] == steps;
    } else {
      var last := |steps| - 1;
      assert steps[..last][..i] == steps[..i];
      StepsErrorEarly(p, steps[..last], visiting, i);
    }
  }

  function Spliced<T>(s: seq<T>, start: nat, end: nat, part: seq<T>): seq<T>
    requires start <= end <= |s|
  {
    s[..start] + part + s[end..]
  }

  method ExtendRange(nodes: seq<FlatNode>, start: nat, end: nat, dependencies: set<Path>) returns (out: seq<FlatNode>)
    requires start <= end <= |nodes|
    ensures out == Spliced(nodes, start, end, Extended(nodes[start..end], dependencies))
  {
    out := nodes;
    for k := start to end
      invariant out == nodes[..start] + Extended(nodes[start..k], dependencies) + nodes[k..]
    {
      assert nodes[start..k + 1] == nodes[start..k] + [nodes[k]];
      out := out[k := out[k].(dependsOn := out[k].dependsOn + dependencies)];
    }
  }

  /** Where each named part lies, counting from `base`. */
  ghost predicate RangesAt(ranges: map<string, (nat, nat)>, names: seq<string>, offsets: seq<nat>, base: nat) {
    |offsets| == |names| + 1 && forall j {:trigger names[j]} :: 0 <= j < |names| ==>
      names[j] in ranges && ranges[names[j]] == (base + offsets[j], base + offsets[j + 1])
  }

  lemma {:induction false} ConcatGrows<T>(before: seq<T>, parts: seq<seq<T>>, part: seq<T>)
    ensures before + Concat(parts + [part]) == before + Concat(parts) + part
    ensures Offsets(parts + [part]) == Offsets(parts) + [Offsets(parts)[|parts|] + |part|]
  {
    assert (parts + [part])[..|parts|] == parts;
  }

  function PathSet(nodes: seq<FlatNode>): set<Path> {
    set n | n in nodes :: n.path
  }

  lemma {:induction false} PathsUnderNext(names: seq<string>, parts: seq<seq<FlatNode>>, wanted: seq<string>, j: nat)
    requires |parts| == |names| && j < |names| && forall a, b :: 0 <= a < b < |names| ==> names[a] != names[b]
    ensures PathsUnder(names, parts, wanted + [names[j]]) == PathsUnder(names, parts, wanted) + PathSet(parts[j])
  {
  }

  lemma {:induction false} ExtendedPaths(nodes: seq<FlatNode>, dependencies: set<Path>)
    ensures PathSet(Extended(nodes, dependencies)) == PathSet(nodes)
  {
    var out := Extended(nodes, dependencies);
    forall q ensures q in PathSet(out) <==> q in PathSet(nodes) {
      if n :| n in nodes && n.path == q {
        var i :| 0 <= i < |nodes| && nodes[i] == n;
        assert out[i] in out;
      }
      if n :| n in out && n.path == q {
        var i :| 0 <= i < |out| && out[i] == n;
        assert nodes[i] in nodes;
      }
    }
  }

  lemma {:induction false} RangeHolds<T>(
    ranges: map<string, (nat, nat)>, names: seq<string>, parts: seq<seq<T>>, before: seq<T>, nodes: seq<T>, j: nat)
    requires |parts| == |names| && j < |names| && RangesAt(ranges, names, Offsets(parts), |before|)
    requires nodes == before + Concat(parts)
    ensures names[j] in ranges
    ensures var (start, end) := ranges[names[j]]; start <= end <= |nodes| && nodes[start..end] == parts[j]
  {
    assert names[j] in ranges;
    ConcatAt(parts, j);
    SliceBehind(before, Concat(parts), Offsets(parts)[j], Offsets(parts)[j + 1], []);
  }

  /** Paths under the named siblings, gathered range by range. */
  method GatherDependencies(
    wanted: seq<string>, ranges: map<string, (nat, nat)>, nodes: seq<FlatNode>,
    ghost before: seq<FlatNode>, ghost names: seq<string>, ghost parts: seq<seq<FlatNode>>)
    returns (paths: set<Path>)
    requires |parts| == |names| && RangesAt(ranges, names, Offsets(parts), |before|) && nodes == before + Concat(parts)
    requires forall a, b :: 0 <= a < b < |names| ==> names[a] != names[b]
    requires forall d <- wanted :: d in names
    ensures paths == PathsUnder(names, parts, wanted)
  {
    paths := {};
    for k := 0 to |wanted|
      invariant paths == PathsUnder(names, parts, wanted[..k])
    {
      assert wanted[k] in wanted;
      ghost var j :| 0 <= j < |names| && names[j] == wanted[k];
      RangeHolds(ranges, names, parts, before, nodes, j);
      var (start, end) := ranges[wanted[k]];
      PathsUnderNext(names, parts, wanted[..k], j);
      assert wanted[..k + 1] == wanted[..k] + [names[j]];
      paths := paths + PathSet(nodes[start..end]);
    }
    assert wanted[..|wanted|] == wanted;
  }

  method EmitInto(p: Program, task: TaskId, path: Path, visiting: seq<TaskId>, nodes: seq<FlatNode>)
    returns (r: Result<seq<FlatNode>, PlanError>)
    requires WellFormed(p)
    ensures r.Ok? == Unfold(p, task, visiting).Ok?
    ensures r.Ok? ==> r.value == nodes + Nodes(Unfold(p, task, visiting).value, path)
    ensures r.Err? ==> Unfold(p, task, visiting) == Err(r.error)
    decreases p.tasks.Keys - Elements(visiting), 0
  {
    if task !in p.tasks { return Err(MissingTask(task)); }
    if p.tasks[task].Leaf? { return Ok(nodes + [FlatNode(path, task, {})]); }
    if task in visiting { return Err(TaskCycle(visiting + [task])); }
    Deeper(p, task, visiting);
    var failed, emitted, ranges := EmitSteps(p, p.tasks[task].steps, path, visiting + [task], nodes);
    if failed.Some? { return Err(failed.value); }
    ghost var kids := UnfoldSteps(p, p.tasks[task].steps, visiting + [task]).value;
    UnfoldedFollowsSteps(p, task, kids);
    var out := LinkSteps(p.tasks[task].steps, emitted, ranges, nodes, kids, Parts(kids, path));
    return Ok(out);
  }

  /** The state of the first pass after some of the steps. */
  ghost predicate EmittedSteps(
    p: Program, done: seq<Step>, path: Path, visiting: seq<TaskId>, nodes: seq<FlatNode>,
    out: seq<FlatNode>, ranges: map<string, (nat, nat)>, kids: seq<Kid>)
  {
    && UnfoldSteps(p, done, visiting) == Ok(kids)
    && RangesAt(ranges, KidNames(kids), Offsets(Parts(kids, path)), |nodes|)
    && out == nodes + Concat(Parts(kids, path))
  }

  lemma {:induction false} EmittedNext(
    p: Program, steps: seq<Step>, i: nat, path: Path, visiting: seq<TaskId>, nodes: seq<FlatNode>,
    out: seq<FlatNode>, ranges: map<string, (nat, nat)>, kids: seq<Kid>, kid: Kid, emitted: seq<FlatNode>)
    requires i < |steps| && StepNamesDistinct(steps)
    requires kid.step == steps[i] && Unfold(p, kid.step.task, visiting) == Ok(kid.tree)
    requires emitted == out + Nodes(kid.tree, path + [kid.step.name])
    requires EmittedSteps(p, steps[..i], path, visiting, nodes, out, ranges, kids)
    ensures EmittedSteps(p, steps[..i + 1], path, visiting, nodes, emitted,
      ranges[steps[i].name := (|out|, |emitted|)], kids + [kid])
  {
    assert steps[..i + 1][..i] == steps[..i];
    FreshName(steps, kids);
    KidEmitted(kids, kid, path, ranges, nodes, out, emitted);
  }

  lemma {:induction false} EmittedFailure(p: Program, steps: seq<Step>, i: nat, visiting: seq<TaskId>, e: PlanError)
    requires i < |steps| && UnfoldSteps(p, steps[..i], visiting).Ok? && Unfold(p, steps[i].task, visiting) == Err(e)
    ensures UnfoldSteps(p, steps, visiting) == Err(e)
  {
    assert steps[..i + 1][..i] == steps[..i];
    StepsErrorEarly(p, steps, visiting, i + 1);
  }

  ghost predicate EmitOutcome(
    p: Program, steps: seq<Step>, path: Path, visiting: seq<TaskId>, nodes: seq<FlatNode>,
    failed: Option<PlanError>, out: seq<FlatNode>, ranges: map<string, (nat, nat)>)
  {
    match UnfoldSteps(p, steps, visiting)
    case Err(e) => failed == Some(e)
    case Ok(kids) => failed == None && EmittedSteps(p, steps, path, visiting, nodes, out, ranges, kids)
  }

  /** The first pass of `emit`: each step's subtree in order, remembering its range. */
  method EmitSteps(p: Program, steps: seq<Step>, path: Path, visiting: seq<TaskId>, nodes: seq<FlatNode>)
    returns (failed: Option<PlanError>, out: seq<FlatNode>, ranges: map<string, (nat, nat)>)
    requires WellFormed(p) && StepNamesDistinct(steps)
    ensures EmitOutcome(p, steps, path, visiting, nodes, failed, out, ranges)
    decreases p.tasks.Keys - Elements(visiting), 1
  {
    failed, out, ranges := None, nodes, map[];
    ghost var kids: seq<Kid> := [];
    for i := 0 to |steps|
      invariant failed == None && EmittedSteps(p, steps[..i], path, visiting, nodes, out, ranges, kids)
    {
      var emitted := EmitInto(p, steps[i].task, path + [steps[i].name], visiting, out);
      if emitted.Err? {
        EmittedFailure(p, steps, i, visiting, emitted.error);
        failed := Some(emitted.error);
        return;
      }
      ghost var kid := Kid(steps[i], Unfold(p, steps[i].task, visiting).value);
      EmittedNext(p, steps, i, path, visiting, nodes, out, ranges, kids, kid, emitted.value);
      ranges := ranges[steps[i].name := (|out|, |emitted.value|)];
      out := emitted.value;
      kids := kids + [kid];
    }
    assert steps[..|steps|] == steps;
  }

  /** Recording one more step's range keeps every range right. */
  lemma {:induction false} KidEmitted(
    kids: seq<Kid>, kid: Kid, path: Path, ranges: map<string, (nat, nat)>,
    nodes: seq<FlatNode>, out: seq<FlatNode>, emitted: seq<FlatNode>)
    requires kid.step.name !in KidNames(kids) && RangesAt(ranges, KidNames(kids), Offsets(Parts(kids, path)), |nodes|)
    requires out == nodes + Concat(Parts(kids, path)) && emitted == out + KidNodes(kid, path)
    ensures emitted == nodes + Concat(Parts(kids + [kid], path))
    ensures RangesAt(ranges[kid.step.name := (|out|, |emitted|)],
      KidNames(kids + [kid]), Offsets(Parts(kids + [kid], path)), |nodes|)
  {
    KidAppended(kids, kid, path);
    PartEmitted(KidNames(kids), Parts(kids, path), kid.step.name, KidNodes(kid, path), ranges, nodes, out, emitted);
  }

  lemma {:induction false} PartEmitted(
    names: seq<string>, parts: seq<seq<FlatNode>>, name: string, part: seq<FlatNode>, ranges: map<string, (nat, nat)>,
    nodes: seq<FlatNode>, out: seq<FlatNode>, emitted: seq<FlatNode>)
    requires |names| == |parts| && name !in names && RangesAt(ranges, names, Offsets(parts), |nodes|)
    requires out == nodes + Concat(parts) && emitted == out + part
    ensures emitted == nodes + Concat(parts + [part])
    ensures RangesAt(ranges[name := (|out|, |emitted|)], names + [name], Offsets(parts + [part]), |nodes|)
  {
    ConcatGrows(nodes, parts, part);
    RangesGrow(ranges, names, Offsets(parts), |nodes|, name, |out|, |emitted|);
  }

  lemma {:induction false} RangesGrow(
    ranges: map<string, (nat, nat)>, names: seq<string>, offsets: seq<nat>, base: nat,
    name: string, start: nat, end: nat)
    requires RangesAt(ranges, names, offsets, base) && name !in names
    requires start == base + offsets[|names|] && start <= end
    ensures RangesAt(ranges[name := (start, end)], names + [name], offsets + [end - base], base)
  {
  }

  lemma {:induction false} ExtendByNothing(nodes: seq<FlatNode>)
    ensures Extended(nodes, {}) == nodes
  {
    forall i | 0 <= i < |nodes| ensures Extended(nodes, {})[i] == nodes[i] {
      assert nodes[i].dependsOn + {} == nodes[i].dependsOn;
    }
  }

  lemma {:induction false} FreshName(steps: seq<Step>, kids: seq<Kid>)
    requires StepNamesDistinct(steps) && |kids| < |steps| && forall j :: 0 <= j < |kids| ==> kids[j].step == steps[j]
    ensures steps[|kids|].name !in KidNames(kids)
  {
  }

  lemma {:induction false} KidAppended(kids: seq<Kid>, kid: Kid, path: Path)
    ensures KidNames(kids + [kid]) == KidNames(kids) + [kid.step.name]
    ensures Parts(kids + [kid], path) == Parts(kids, path) + [KidNodes(kid, path)]
  {
  }

  lemma {:induction false} LinkedNext(kids: seq<Kid>, parts: seq<seq<FlatNode>>, i: nat)
    requires |parts| == |kids| && i < |kids|
    ensures Linked(kids, parts, i)[i] == parts[i]
    ensures Linked(kids, parts, i + 1) ==
      Linked(kids, parts, i)[i := Extended(parts[i], DependencyPaths(kids, parts, i))]
  {
  }

  lemma {:induction false} LinkedLengths(kids: seq<Kid>, parts: seq<seq<FlatNode>>, i: nat)
    requires |parts| == |kids| && i <= |kids|
    ensures Offsets(Linked(kids, parts, i)) == Offsets(parts)
  {
    OffsetsByLength(Linked(kids, parts, i), parts);
  }

  lemma {:induction false} LinkedPaths(kids: seq<Kid>, parts: seq<seq<FlatNode>>, i: nat)
    requires |parts| == |kids| && i < |kids|
    ensures PathsUnder(KidNames(kids), Linked(kids, parts, i), kids[i].step.dependsOn) ==
      DependencyPaths(kids, parts, i)
  {
    var linked := Linked(kids, parts, i);
    forall j | 0 <= j < |parts| ensures PathSet(linked[j]) == PathSet(parts[j]) {
      if j < i { ExtendedPaths(parts[j], DependencyPaths(kids, parts, j)); }
    }
    SamePathsUnder(KidNames(kids), linked, parts, kids[i].step.dependsOn);
  }

  lemma {:induction false} SamePathsUnder(
      names: seq<string>, a: seq<seq<FlatNode>>, b: seq<seq<FlatNode>>, wanted: seq<string>)
    requires |a| == |b| == |names| && forall j :: 0 <= j < |a| ==> PathSet(a[j]) == PathSet(b[j])
    ensures PathsUnder(names, a, wanted) == PathsUnder(names, b, wanted)
  {
    forall q ensures q in PathsUnder(names, a, wanted) <==> q in PathsUnder(names, b, wanted) {
      if j: nat, n: FlatNode :| j < |a| && names[j] in wanted && n in a[j] && n.path == q {
        assert q in PathSet(a[j]);
      }
      if j: nat, n: FlatNode :| j < |b| && names[j] in wanted && n in b[j] && n.path == q {
        assert q in PathSet(b[j]);
      }
    }
  }

  /** The kids follow the steps, whose names are distinct and cover all dependencies. */
  ghost predicate FollowsSteps(kids: seq<Kid>, steps: seq<Step>) {
    && |kids| == |steps|
    && (forall i :: 0 <= i < |steps| ==> kids[i].step == steps[i])
    && (forall a, b :: 0 <= a < b < |kids| ==> KidNames(kids)[a] != KidNames(kids)[b])
    && (forall i :: 0 <= i < |steps| ==> forall d <- steps[i].dependsOn :: d in KidNames(kids))
  }

  /** The second pass of `emit`: each step's range learns what it waits for. */
  method LinkSteps(
    steps: seq<Step>, nodes: seq<FlatNode>, ranges: map<string, (nat, nat)>,
    ghost before: seq<FlatNode>, ghost kids: seq<Kid>, ghost parts: seq<seq<FlatNode>>)
    returns (out: seq<FlatNode>)
    requires FollowsSteps(kids, steps) && |parts| == |kids|
    requires RangesAt(ranges, KidNames(kids), Offsets(parts), |before|) && nodes == before + Concat(parts)
    ensures out == before + Concat(Linked(kids, parts, |kids|))
  {
    ghost var linked := parts;
    out := nodes;
    for i := 0 to |steps|
      invariant linked == Linked(kids, parts, i)
      invariant out == before + Concat(linked)
    {
      out, linked := LinkStep(steps, i, out, ranges, before, kids, parts, linked);
    }
  }

  method LinkStep(
    steps: seq<Step>, i: nat, nodes: seq<FlatNode>, ranges: map<string, (nat, nat)>,
    ghost before: seq<FlatNode>, ghost kids: seq<Kid>, ghost parts: seq<seq<FlatNode>>,
    ghost linked: seq<seq<FlatNode>>)
    returns (out: seq<FlatNode>, ghost next: seq<seq<FlatNode>>)
    requires FollowsSteps(kids, steps) && |parts| == |kids| && i < |steps|
    requires RangesAt(ranges, KidNames(kids), Offsets(parts), |before|)
    requires linked == Linked(kids, parts, i) && nodes == before + Concat(linked)
    ensures next == Linked(kids, parts, i + 1) && out == before + Concat(next)
  {
    LinkedRanges(kids, parts, i, |before|, ranges, linked);
    var dependencies := GatherDependencies(steps[i].dependsOn, ranges, nodes, before, KidNames(kids), linked);
    assert KidNames(kids)[i] == steps[i].name;
    var (start, end) := ranges[steps[i].name];
    LinkedNext(kids, parts, i);
    ghost var part, extended := parts[i], Extended(parts[i], dependencies);
    next := linked[i := extended];
    SpliceAt(before, linked, i, extended, nodes, start, end);
    out := LinkRange(nodes, start, end, dependencies, part);
  }

  /** A step that waits for nothing leaves its range alone. */
  method LinkRange(nodes: seq<FlatNode>, start: nat, end: nat, dependencies: set<Path>, ghost part: seq<FlatNode>)
    returns (out: seq<FlatNode>)
    requires start <= end <= |nodes| && nodes[start..end] == part
    ensures out == Spliced(nodes, start, end, Extended(part, dependencies))
  {
    if dependencies == {} {
      SpliceNothing(nodes, start, end);
      return nodes;
    }
    out := ExtendRange(nodes, start, end, dependencies);
  }

  lemma {:induction false} LinkedRanges(
    kids: seq<Kid>, parts: seq<seq<FlatNode>>, i: nat, base: nat, ranges: map<string, (nat, nat)>,
    linked: seq<seq<FlatNode>>)
    requires |parts| == |kids| && i < |kids| && linked == Linked(kids, parts, i)
    requires RangesAt(ranges, KidNames(kids), Offsets(parts), base)
    ensures RangesAt(ranges, KidNames(kids), Offsets(linked), base)
    ensures KidNames(kids)[i] in ranges
    ensures ranges[KidNames(kids)[i]] == (base + Offsets(linked)[i], base + Offsets(linked)[i + 1])
    ensures PathsUnder(KidNames(kids), linked, kids[i].step.dependsOn) == DependencyPaths(kids, parts, i)
  {
    LinkedPaths(kids, parts, i);
    LinkedLengths(kids, parts, i);
  }

  lemma {:induction false} SpliceAt<T>(
    before: seq<T>, parts: seq<seq<T>>, j: nat, part: seq<T>, all: seq<T>, start: nat, end: nat)
    requires j < |parts| && |part| == |parts[j]| && all == before + Concat(parts)
    requires start == |before| + Offsets(parts)[j] && end == |before| + Offsets(parts)[j + 1]
    ensures start <= end <= |all| && all[start..end] == parts[j]
    ensures before + Concat(parts[j := part]) == Spliced(all, start, end, part)
  {
    ConcatAt(parts, j);
    ConcatUpdate(parts, j, part);
    SliceBehind(before, Concat(parts), Offsets(parts)[j], Offsets(parts)[j + 1], part);
  }

  lemma {:induction false} SpliceNothing(nodes: seq<FlatNode>, start: nat, end: nat)
    requires start <= end <= |nodes|
    ensures Spliced(nodes, start, end, Extended(nodes[start..end], {})) == nodes
  {
    ExtendByNothing(nodes[start..end]);
  }

  lemma {:induction false} SliceBehind<T>(before: seq<T>, all: seq<T>, start: nat, end: nat, part: seq<T>)
    requires start <= end <= |all|
    ensures (before + all)[|before| + start..|before| + end] == all[start..end]
    ensures before + (all[..start] + part + all[end..]) == Spliced(before + all, |before| + start, |before| + end, part)
  {
  }

  lemma {:induction false} UnfoldedFollowsSteps(p: Program, task: TaskId, kids: seq<Kid>)
    requires WellFormed(p) && task in p.tasks && p.tasks[task].Composite?
    requires |kids| == |p.tasks[task].steps| && forall i :: 0 <= i < |kids| ==> kids[i].step == p.tasks[task].steps[i]
    ensures FollowsSteps(kids, p.tasks[task].steps)
  {
    var steps := p.tasks[task].steps;
    forall i, d | 0 <= i < |steps| && d in steps[i].dependsOn ensures d in KidNames(kids) {
      assert steps[i] in steps && d in StepNames(steps);
      var s :| s in steps && s.name == d;
      var j :| 0 <= j < |steps| && steps[j] == s;
      assert KidNames(kids)[j] == d;
    }
  }

  method Flatten(p: Program, root: TaskId) returns (r: Result<seq<PlanNode>, PlanError>)
    requires WellFormed(p)
    ensures r == Flattened(p, root)
  {
    var emitted := EmitInto(p, root, [root], [], []);
    if emitted.Err? { return Err(emitted.error); }
    var nodes := emitted.value;
    OrderedPathsKnown(nodes);
    var scheduled := Schedule(Paths(nodes), DependencyGraph(nodes));
    if scheduled.Err? { return Err(StepCycle(root, scheduled.error)); }
    return Ok(PlacedNodes(nodes, scheduled.value));
  }
}
