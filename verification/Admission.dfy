/** What lowering checks before a program may run (execution/lower.rs,
    nixfied-manifest/src/validation.rs): shapes, references, graph, capacity. */
module Admission {
  import opened Wrappers
  import opened Graphs
  import opened Ids
  import opened Programs
  import opened Flattening
  import opened Planner

  datatype Refusal =
    | EmptyComposite(task: TaskId)
    | UnsafeStep(task: TaskId, step: string)
    | Undeclared(owner: string, id: string)
    | Unplannable(e: PlanError)

  // ---- Shapes ----

  predicate StepsWellShaped(steps: seq<Step>) {
    steps != [] && forall s <- steps :: IsStepSafeId(s.name)
  }

  ghost predicate IsShapeError(tasks: map<TaskId, Task>, e: Refusal) {
    match e
    case EmptyComposite(id) => id in tasks && tasks[id].Composite? && tasks[id].steps == []
    case UnsafeStep(id, name) =>
      id in tasks && tasks[id].Composite? && !IsStepSafeId(name) && exists s <- tasks[id].steps :: s.name == name
    case _ => false
  }

  /** Every composite has steps, and every step a name safe in a step path. */
  method ValidateTasks(tasks: map<TaskId, Task>) returns (r: Result<(), Refusal>)
    ensures r.Ok? <==> forall id :: id in tasks && tasks[id].Composite? ==> StepsWellShaped(tasks[id].steps)
    ensures r.Err? ==> IsShapeError(tasks, r.error)
  {
    var ids := SortIds(tasks.Keys);
    for i := 0 to |ids|
      invariant forall j :: 0 <= j < i ==>
        ids[j] in tasks && (tasks[ids[j]].Composite? ==> StepsWellShaped(tasks[ids[j]].steps))
    {
      assert ids[i] in Elements(ids);
      var task := tasks[ids[i]];
      if task.Composite? {
        if task.steps == [] { return Err(EmptyComposite(ids[i])); }
        for k := 0 to |task.steps|
          invariant forall j :: 0 <= j < k ==> IsStepSafeId(task.steps[j].name)
        {
          if !IsStepSafeId(task.steps[k].name) {
            assert task.steps[k] in task.steps;
            return Err(UnsafeStep(ids[i], task.steps[k].name));
          }
        }
      }
    }
    forall id | id in tasks && tasks[id].Composite? ensures StepsWellShaped(tasks[id].steps) {
      assert id in Elements(ids);
    }
    return Ok(());
  }

  // ---- References ----

  /** The first listed id that is not declared. */
  method FirstUndeclared(ids: seq<string>, declared: set<string>) returns (r: Option<string>)
    ensures r.None? <==> forall id <- ids :: id in declared
    ensures r.Some? ==> r.value in ids && r.value !in declared
  {
    for i := 0 to |ids|
      invariant forall j :: 0 <= j < i ==> ids[j] in declared
    {
      if ids[i] !in declared { return Some(ids[i]); }
    }
    return None;
  }

  predicate ServiceResolves(p: Program, id: ServiceId)
    requires id in p.services
  {
    && (forall t <- p.services[id].connectsTo :: t in p.services)
    && (p.services[id].prepare.Some? ==> p.services[id].prepare.value in p.tasks)
  }

  predicate TaskResolves(p: Program, id: TaskId)
    requires id in p.tasks
  {
    match p.tasks[id]
    case Leaf(requirements) => forall s <- requirements :: s in p.services
    case Composite(steps) => forall s <- steps :: s.task in p.tasks && forall d <- s.dependsOn :: d in StepNames(steps)
  }

  method ServiceReferences(p: Program, id: ServiceId) returns (r: Result<(), Refusal>)
    requires id in p.services
    ensures r.Ok? <==> ServiceResolves(p, id)
    ensures r.Err? ==> r.error.Undeclared? && r.error.owner == id
  {
    var target := FirstUndeclared(p.services[id].connectsTo, p.services.Keys);
    if target.Some? { return Err(Undeclared(id, target.value)); }
    var prepare := p.services[id].prepare;
    if prepare.Some? && prepare.value !in p.tasks { return Err(Undeclared(id, prepare.value)); }
    return Ok(());
  }

  method TaskReferences(p: Program, id: TaskId) returns (r: Result<(), Refusal>)
    requires id in p.tasks
    ensures r.Ok? <==> TaskResolves(p, id)
    ensures r.Err? ==> r.error.Undeclared? && r.error.owner == id
  {
    match p.tasks[id]
    case Leaf(requirements) =>
      var target := FirstUndeclared(requirements, p.services.Keys);
      if target.Some? { return Err(Undeclared(id, target.value)); }
      return Ok(());
    case Composite(steps) =>
      for k := 0 to |steps|
        invariant forall j :: 0 <= j < k ==>
          steps[j].task in p.tasks && forall d <- steps[j].dependsOn :: d in StepNames(steps)
      {
        assert steps[k] in steps;
        if steps[k].task !in p.tasks { return Err(Undeclared(id, steps[k].task)); }
        var dependency := FirstUndeclared(steps[k].dependsOn, StepNames(steps));
        if dependency.Some? { return Err(Undeclared(id, dependency.value)); }
      }
      return Ok(());
  }

  /** Accepts exactly the programs in which every reference names something declared. */
  method ProveReferences(p: Program) returns (r: Result<(), Refusal>)
    ensures r.Ok? <==> ReferencesResolve(p)
    ensures r.Err? ==> r.error.Undeclared? && (r.error.owner in p.services || r.error.owner in p.tasks)
  {
    var services := SortIds(p.services.Keys);
    for i := 0 to |services|
      invariant forall j :: 0 <= j < i ==> services[j] in p.services && ServiceResolves(p, services[j])
    {
      assert services[i] in Elements(services);
      r := ServiceReferences(p, services[i]);
      if r.Err? { return; }
    }
    forall id | id in p.services ensures ServiceResolves(p, id) { assert id in Elements(services); }
    var tasks := SortIds(p.tasks.Keys);
    for i := 0 to |tasks|
      invariant forall j :: 0 <= j < i ==> tasks[j] in p.tasks && TaskResolves(p, tasks[j])
    {
      assert tasks[i] in Elements(tasks);
      r := TaskReferences(p, tasks[i]);
      if r.Err? { return; }
    }
    forall id | id in p.tasks ensures TaskResolves(p, id) { assert id in Elements(tasks); }
    return Ok(());
  }

  // ---- The gate ----

  /** Lowering lets a validated program through exactly when its references
      resolve and the graph and capacity proofs accept it. */
  method Lower(p: Program) returns (r: Result<(), Refusal>)
    requires Validated(p)
    ensures r.Ok? <==> ReferencesResolve(p) && Admissible(p)
    ensures r.Ok? <==> ReferencesResolve(p) && GraphAdmissible(p) && AllHosted(p)
    ensures r.Err? && r.error.Unplannable? ==>
      && ReferencesResolve(p)
      && (FailsToFlatten(p, r.error.e) || r.error.e.ServiceCycle? || IsCapacityError(p, r.error.e))
  {
    r := ProveReferences(p);
    if r.Err? { return; }
    var admitted := Admit(p);
    r := match admitted case Ok(_) => Ok(()) case Err(e) => Err(Unplannable(e));
  }
}
