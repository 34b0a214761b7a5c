/** The dotted step-path strings. Two lists of dot-free segments render to the
    same string only if they are the same list, so the planner's string
    comparisons decide equality of occurrences. */
module StepPaths {
  import opened Programs
  import opened Flattening
  import opened FlattenFacts
  import opened PlanOrder

  function Render(path: Path): string
    requires path != []
  {
    if |path| == 1 then path[0] else path[0] + "." + Render(path[1..])
  }

  predicate DotFree(path: Path) {
    forall segment <- path :: '.' !in segment
  }

  lemma {:induction false} RenderInjective(a: Path, b: Path)
    requires a != [] && b != [] && DotFree(a) && DotFree(b) && Render(a) == Render(b)
    ensures a == b
    decreases |a|
  {
    HeadEnds(a);
    HeadEnds(b);
    HeadNotShorter(a, b);
    HeadNotShorter(b, a);
    var s := Render(a);
    assert a[0] == s[..|a[0]|] == b[0];
    if |a| > 1 && |b| > 1 {
      assert Render(a[1..]) == s[|a[0]| + 1..] == Render(b[1..]);
      RenderInjective(a[1..], b[1..]);
      assert a == [a[0]] + a[1..] && b == [b[0]] + b[1..];
    }
  }

  /** The first segment runs to the end of the string or to its first dot. */
  lemma {:induction false} HeadEnds(a: Path)
    requires a != []
    ensures a[0] <= Render(a)
    ensures |a| == 1 ==> |Render(a)| == |a[0]|
    ensures |a| > 1 ==> |Render(a)| > |a[0]| && Render(a)[|a[0]|] == '.' && Render(a)[|a[0]| + 1..] == Render(a[1..])
  {
  }

  lemma {:induction false} NoDotWithin(head: string, text: string)
    requires head <= text && '.' !in head
    ensures forall i :: 0 <= i < |head| ==> text[i] != '.'
  {
    forall i | 0 <= i < |head| ensures text[i] != '.' { assert head[i] in head; }
  }

  lemma {:induction false} HeadNotShorter(a: Path, b: Path)
    requires a != [] && b != [] && DotFree(a) && DotFree(b) && Render(a) == Render(b)
    ensures |a[0]| >= |b[0]|
  {
    HeadEnds(a);
    HeadEnds(b);
    NoDotWithin(b[0], Render(b));
  }

  lemma {:induction false} StepSafeIsDotFree(id: string)
    requires IsStepSafeId(id)
    ensures '.' !in id
  {
  }

  lemma {:induction false} ResolvedSegmentsDotFree(p: Program, task: TaskId, names: Path)
    requires Validated(p) && Resolve(p, task, names).Some?
    ensures DotFree(names)
    decreases |names|
  {
    if names != [] {
      var step := FindStep(p.tasks[task].steps, names[0]).value;
      StepSafeIsDotFree(step.name);
      ResolvedSegmentsDotFree(p, step.task, names[1..]);
      assert names == [names[0]] + names[1..];
    }
  }

  lemma {:induction false} ListedSegmentsDotFree(p: Program, root: TaskId, out: seq<PlanNode>, node: PlanNode)
    requires Validated(p) && root in p.tasks && ListsLeavesOnce(p, root, out) && node in out
    ensures node.path != [] && DotFree(node.path)
  {
    var i :| 0 <= i < |out| && out[i] == node;
    ResolvedSegmentsDotFree(p, root, node.path[1..]);
    StepSafeIsDotFree(root);
    assert node.path == [root] + node.path[1..];
  }

  lemma {:induction false} PlannedSegmentsDotFree(p: Program, root: TaskId, node: PlanNode)
    requires WellFormed(p) && Flattened(p, root).Ok? && node in Flattened(p, root).value
    ensures node.path != [] && DotFree(node.path)
  {
    FlattenedIsPlanOrder(p, root);
    ListedSegmentsDotFree(p, root, Flattened(p, root).value, node);
  }

  /** The step paths of a plan are pairwise distinct as strings. */
  lemma {:induction false} PlannedStepPathsDistinct(p: Program, root: TaskId, i: nat, j: nat)
    requires WellFormed(p) && Flattened(p, root).Ok? && i < j < |Flattened(p, root).value|
    ensures var out := Flattened(p, root).value;
      out[i].path != [] && out[j].path != [] && Render(out[i].path) != Render(out[j].path)
  {
    var out := Flattened(p, root).value;
    PlannedSegmentsDotFree(p, root, out[i]);
    PlannedSegmentsDotFree(p, root, out[j]);
    FlattenedIsPlanOrder(p, root);
    assert ListsLeavesOnce(p, root, out);
    if Render(out[i].path) == Render(out[j].path) { RenderInjective(out[i].path, out[j].path); }
  }
}
