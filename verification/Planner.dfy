/** Admission and planning read the same graph (execution/plan.rs): what
    `prove_graph` and `prove_capacity` accept once, `plan_program` never
    rejects for any declared task and any slot with a window. */
module Planner {
  import opened Wrappers
  import opened Graphs
  import opened Ids
  import opened Programs
  import opened Flattening
  import opened Emission
  import opened Services
  import opened Ports
  import opened Hosting

  type Bases = map<TaskId, set<ServiceId>>

  /** The services one task needs, with everything they wait for. */
  ghost function Required(p: Program, task: TaskId): set<ServiceId> {
    Closure(ServiceGraph(p), Base(p, task))
  }

  lemma {:induction false} RequiredDeclared(p: Program, task: TaskId)
    requires WellFormed(p)
    ensures Required(p, task) <= p.services.Keys
    ensures KnownServices(p, Sorted(Required(p, task)))
  {
    forall id <- Sorted(Required(p, task)) ensures id in p.services {
      assert id in Elements(Sorted(Required(p, task)));
    }
  }

  ghost function Demand(p: Program, task: TaskId): nat
    requires WellFormed(p)
  {
    RequiredDeclared(p, task);
    EndpointTotal(p, Sorted(Required(p, task)))
  }

  ghost function BasesOf(p: Program): Bases {
    map task | task in p.tasks :: Base(p, task)
  }

  ghost function RequiredOf(p: Program): Bases {
    map task | task in p.tasks :: Required(p, task)
  }

  ghost function DemandsOf(p: Program): map<TaskId, nat>
    requires WellFormed(p)
  {
    map task | task in p.tasks :: Demand(p, task)
  }

  /** A table holding the wanted entries for the tasks done so far. */
  ghost predicate Agrees<V>(table: map<TaskId, V>, wanted: map<TaskId, V>, done: set<TaskId>) {
    table.Keys == done <= wanted.Keys && forall task :: task in done ==> table[task] == wanted[task]
  }

  lemma {:induction false} AgreesOnOneMore<V>(
      table: map<TaskId, V>, wanted: map<TaskId, V>, tasks: seq<TaskId>, i: nat, v: V)
    requires i < |tasks| && Agrees(table, wanted, Elements(tasks[..i]))
    requires Elements(tasks) == wanted.Keys && (tasks[i] in wanted ==> v == wanted[tasks[i]])
    ensures Agrees(table[tasks[i] := v], wanted, Elements(tasks[..i + 1]))
  {
    assert tasks[i] in Elements(tasks) && tasks[..i + 1] == tasks[..i] + [tasks[i]];
  }

  lemma {:induction false} AgreesOnAll<V>(table: map<TaskId, V>, wanted: map<TaskId, V>, tasks: seq<TaskId>)
    requires Agrees(table, wanted, Elements(tasks[..|tasks|])) && Elements(tasks) == wanted.Keys
    ensures table == wanted
  {
    assert tasks[..|tasks|] == tasks;
  }

  // ---- What admission proves ----

  ghost function FlatteningTasks(p: Program): set<TaskId> {
    set task | task in p.tasks && Flattened(p, task).Ok?
  }

  ghost predicate AllFlatten(p: Program) {
    p.tasks.Keys <= FlatteningTasks(p)
  }

  ghost predicate GraphAdmissible(p: Program) {
    AllFlatten(p) && Acyclic(ServiceGraph(p))
  }

  ghost predicate FitsSlot(p: Program, slot: nat)
    requires WellFormed(p) && slot in p.slotWindows
  {
    forall task :: task in p.tasks ==> Demand(p, task) <= p.slotWindows[slot].Capacity()
  }

  ghost predicate CapacitySuffices(p: Program)
    requires WellFormed(p)
  {
    forall slot :: slot in p.slotWindows ==> FitsSlot(p, slot)
  }

  /** Every endpoint of the services can have a port of its own between the ends
      of the slot's window. */
  ghost predicate Hosted(p: Program, slot: nat, services: set<ServiceId>) {
    && slot in p.slotWindows
    && Hostable(EndpointsOf(p, services), p.slotWindows[slot].start, p.slotWindows[slot].end)
  }

  ghost predicate TaskHosted(p: Program, slot: nat, task: TaskId) {
    Hosted(p, slot, Required(p, task))
  }

  ghost predicate AllHosted(p: Program) {
    forall slot, task :: slot in p.slotWindows && task in p.tasks ==> TaskHosted(p, slot, task)
  }

  lemma {:induction false} DemandIsHosted(p: Program, slot: nat, task: TaskId)
    requires WellFormed(p) && slot in p.slotWindows
    ensures Demand(p, task) <= p.slotWindows[slot].Capacity() <==> TaskHosted(p, slot, task)
    ensures |EndpointsOf(p, Required(p, task))| == Demand(p, task)
  {
    var services := Required(p, task);
    RequiredDeclared(p, task);
    AscendingDistinct(Sorted(services));
    assert Elements(Sorted(services)) == services;
    TotalCounts(p, Sorted(services));
    CapacityHosts(p, Sorted(services), p.slotWindows[slot]);
  }

  lemma {:induction false} CapacityIsHosting(p: Program)
    requires WellFormed(p)
    ensures CapacitySuffices(p) <==> AllHosted(p)
  {
    forall slot, task | slot in p.slotWindows && task in p.tasks
      ensures Demand(p, task) <= p.slotWindows[slot].Capacity() <==> TaskHosted(p, slot, task)
    {
      DemandIsHosted(p, slot, task);
    }
    if AllHosted(p) {
      forall slot | slot in p.slotWindows ensures FitsSlot(p, slot) {
        forall task | task in p.tasks ensures Demand(p, task) <= p.slotWindows[slot].Capacity() {
          assert TaskHosted(p, slot, task);
        }
      }
    }
    if CapacitySuffices(p) {
      forall slot, task | slot in p.slotWindows && task in p.tasks ensures TaskHosted(p, slot, task) {
        assert FitsSlot(p, slot);
      }
    }
  }

  ghost predicate Admissible(p: Program)
    requires WellFormed(p)
  {
    GraphAdmissible(p) && CapacitySuffices(p)
  }

  ghost predicate FailsToFlatten(p: Program, e: PlanError) {
    exists task :: task in p.tasks && Flattened(p, task) == Err(e)
  }

  /** The base of one task, or the error flattening it gives. */
  method TaskBase(p: Program, task: TaskId) returns (r: Result<set<ServiceId>, PlanError>)
    requires WellFormed(p)
    ensures r.Ok? && task in p.tasks ==> task in FlatteningTasks(p)
    ensures r.Ok? ==> r.value == Base(p, task)
    ensures r.Err? ==> Flattened(p, task) == Err(r.error)
  {
    var nodes := Flatten(p, task);
    if nodes.Err? { return Err(nodes.error); }
    return Ok(DirectRequirements(p, nodes.value));
  }

  method AddBase(
      p: Program, tasks: seq<TaskId>, i: nat, bases: Bases, ghost wanted: Bases, ghost flattening: set<TaskId>)
    returns (r: Result<Bases, PlanError>)
    requires WellFormed(p) && wanted == BasesOf(p) && flattening == FlatteningTasks(p)
    requires Elements(tasks) == wanted.Keys && i < |tasks| && Agrees(bases, wanted, Elements(tasks[..i]))
    ensures tasks[i] in wanted && (r.Ok? <==> tasks[i] in flattening)
    ensures r.Ok? ==> Agrees(r.value, wanted, Elements(tasks[..i + 1]))
    ensures r.Err? ==> FailsToFlatten(p, r.error)
  {
    assert tasks[i] in Elements(tasks);
    var base := TaskBase(p, tasks[i]);
    if base.Err? { return Err(base.error); }
    AgreesOnOneMore(bases, wanted, tasks, i, base.value);
    return Ok(bases[tasks[i] := base.value]);
  }

  method AllBases(p: Program) returns (r: Result<Bases, PlanError>)
    requires WellFormed(p)
    ensures r.Ok? <==> AllFlatten(p)
    ensures r.Ok? ==> r.value == BasesOf(p)
    ensures r.Err? ==> FailsToFlatten(p, r.error)
  {
    ghost var wanted: Bases := BasesOf(p);
    ghost var flattening: set<TaskId> := FlatteningTasks(p);
    var bases: Bases := map[];
    var tasks := SortIds(p.tasks.Keys);
    for i := 0 to |tasks|
      invariant Agrees(bases, wanted, Elements(tasks[..i]))
      invariant forall j :: 0 <= j < i ==> tasks[j] in flattening
    {
      var added := AddBase(p, tasks, i, bases, wanted, flattening);
      if added.Err? { return Err(added.error); }
      bases := added.value;
    }
    AgreesOnAll(bases, wanted, tasks);
    forall task | task in p.tasks ensures task in flattening { assert task in Elements(tasks); }
    return Ok(bases);
  }

  method ProveGraph(p: Program) returns (r: Result<Bases, PlanError>)
    requires WellFormed(p)
    ensures r.Ok? <==> GraphAdmissible(p)
    ensures r.Ok? ==> r.value == RequiredOf(p)
    ensures r.Err? ==>
      || FailsToFlatten(p, r.error)
      || (AllFlatten(p) && r.error.ServiceCycle? && IsCycle(ServiceGraph(p), r.error.start, r.error.trail))
  {
    var found := AllBases(p);
    if found.Err? { return Err(found.error); }
    var bases := found.value;
    ghost var g: map<ServiceId, set<ServiceId>> := ServiceGraph(p);
    ServiceGraphClosed(p);
    var edges := ServiceEdges(p, bases);
    var cycles := ProveServiceCycles(edges, g);
    if cycles.Err? { return Err(cycles.error); }
    var required := CloseAll(p, bases, edges, g);
    return Ok(required);
  }

  method CloseAll(
      p: Program, bases: Bases, edges: Edges, ghost g: map<ServiceId, set<ServiceId>>)
      returns (required: Bases)
    requires WellFormed(p) && bases == BasesOf(p)
    requires g == ServiceGraph(p) && Closed(g) && EdgesOf(edges, g)
    ensures required == RequiredOf(p)
  {
    ghost var wanted: Bases := RequiredOf(p);
    required := map[];
    var tasks := SortIds(bases.Keys);
    for i := 0 to |tasks|
      invariant Agrees(required, wanted, Elements(tasks[..i]))
    {
      assert tasks[i] in Elements(tasks);
      BaseDeclared(p, tasks[i]);
      var union := CloseUnion(bases[tasks[i]], edges, g);
      AgreesOnOneMore(required, wanted, tasks, i, union);
      required := required[tasks[i] := union];
    }
    AgreesOnAll(required, wanted, tasks);
  }

  // ---- Capacity ----

  method SumEndpoints(p: Program, ids: seq<ServiceId>) returns (total: nat)
    requires KnownServices(p, ids)
    ensures total == EndpointTotal(p, ids)
  {
    total := 0;
    for i := 0 to |ids|
      invariant KnownServices(p, ids[..i]) && total == EndpointTotal(p, ids[..i])
    {
      EndpointTotalNext(p, ids, i);
      total := total + |p.services[ids[i]].endpoints|;
    }
    assert ids[..|ids|] == ids;
  }

  method TaskDemand(p: Program, task: TaskId, required: set<ServiceId>) returns (total: nat)
    requires WellFormed(p) && required == Required(p, task)
    ensures total == Demand(p, task)
  {
    var ids := SortIds(required);
    SortedIs(ids, required);
    RequiredDeclared(p, task);
    total := SumEndpoints(p, ids);
  }

  method Demands(p: Program, required: Bases) returns (demands: map<TaskId, nat>)
    requires WellFormed(p) && required == RequiredOf(p)
    ensures demands == DemandsOf(p)
  {
    ghost var wanted: map<TaskId, nat> := DemandsOf(p);
    demands := map[];
    var tasks := SortIds(required.Keys);
    for i := 0 to |tasks|
      invariant Agrees(demands, wanted, Elements(tasks[..i]))
    {
      assert tasks[i] in Elements(tasks);
      var total := TaskDemand(p, tasks[i], required[tasks[i]]);
      AgreesOnOneMore(demands, wanted, tasks, i, total);
      demands := demands[tasks[i] := total];
    }
    AgreesOnAll(demands, wanted, tasks);
  }

  lemma {:induction false} LowestSlot(slots: set<nat>) returns (lowest: nat)
    requires slots != {}
    ensures lowest in slots && forall slot :: slot in slots ==> lowest <= slot
    decreases slots
  {
    var some :| some in slots;
    lowest := some;
    if slots - {some} == {} {
      assert slots == {some};
    } else {
      var other := LowestSlot(slots - {some});
      if other < some { lowest := other; }
      assert slots == slots - {some} + {some};
    }
  }

  /** The error names the lowest slot too small for some task, and that task's demand. */
  ghost predicate IsCapacityError(p: Program, e: PlanError)
    requires WellFormed(p)
  {
    && e.WindowTooSmall? && e.slot in p.slotWindows
    && (exists task :: IsMisfit(p, e.slot, task, e))
    && forall slot :: slot in p.slotWindows && slot < e.slot ==> FitsSlot(p, slot)
  }

  lemma {:induction false} MisfitIsNotHosted(p: Program, slot: nat, task: TaskId, e: PlanError)
    requires WellFormed(p) && slot in p.slotWindows && IsMisfit(p, slot, task, e)
    ensures task in p.tasks && !TaskHosted(p, slot, task) && !FitsSlot(p, slot)
    ensures e.WindowTooSmall? && e.slot == slot
  {
    DemandIsHosted(p, slot, task);
  }

  method ProveCapacity(p: Program, required: Bases) returns (r: Result<(), PlanError>)
    requires WellFormed(p) && required == RequiredOf(p)
    ensures r.Ok? <==> CapacitySuffices(p)
    ensures r.Ok? <==> AllHosted(p)
    ensures r.Err? ==> IsCapacityError(p, r.error)
    ensures r.Err? ==> exists task :: task in p.tasks && !TaskHosted(p, r.error.slot, task)
  {
    hide FitsSlot, AllHosted, TaskHosted, Demand, WellFormed, IsMisfit, RequiredOf;
    CapacityIsHosting(p);
    var demands := Demands(p, required);
    var left := p.slotWindows.Keys;
    while left != {}
      invariant left <= p.slotWindows.Keys
      invariant forall slot, other :: slot in p.slotWindows && slot !in left && other in left ==> slot < other
      invariant forall slot :: slot in p.slotWindows && slot !in left ==> FitsSlot(p, slot)
    {
      ghost var lowest := LowestSlot(left);
      var slot :| slot in left && forall other :: other in left ==> slot <= other;
      r := FitTasks(p, required, demands, slot);
      if r.Err? {
        ghost var task :| IsMisfit(p, slot, task, r.error);
        MisfitIsNotHosted(p, slot, task, r.error);
        return;
      }
      left := left - {slot};
    }
    return Ok(());
  }

  ghost predicate IsMisfit(p: Program, slot: nat, task: TaskId, e: PlanError)
    requires WellFormed(p) && slot in p.slotWindows
  {
    && task in p.tasks && Demand(p, task) > p.slotWindows[slot].Capacity()
    && e == WindowTooSmall(slot, Demand(p, task), |Required(p, task)|)
  }

  method FitTasks(p: Program, required: Bases, demands: map<TaskId, nat>, slot: nat) returns (r: Result<(), PlanError>)
    requires WellFormed(p) && slot in p.slotWindows && required == RequiredOf(p) && demands == DemandsOf(p)
    ensures r.Ok? <==> FitsSlot(p, slot)
    ensures r.Err? ==> exists task :: IsMisfit(p, slot, task, r.error)
  {
    var capacity := p.slotWindows[slot].Capacity();
    var tasks := SortIds(p.tasks.Keys);
    var fits, task := FirstOver(tasks, demands, capacity);
    if !fits {
      assert IsMisfit(p, slot, task, WindowTooSmall(slot, demands[task], |required[task]|));
      return Err(WindowTooSmall(slot, demands[task], |required[task]|));
    }
    forall task | task in p.tasks ensures demands[task] == Demand(p, task) <= capacity {
      assert task in Elements(tasks);
    }
    return Ok(());
  }

  method FirstOver(tasks: seq<TaskId>, demands: map<TaskId, nat>, capacity: nat) returns (fits: bool, task: TaskId)
    requires forall task <- tasks :: task in demands
    ensures fits ==> forall task <- tasks :: demands[task] <= capacity
    ensures !fits ==> task in demands && demands[task] > capacity
  {
    task := "";
    for i := 0 to |tasks|
      invariant forall j :: 0 <= j < i ==> demands[tasks[j]] <= capacity
    {
      if demands[tasks[i]] > capacity { return false, tasks[i]; }
    }
    return true, task;
  }

  /** The gate at the end of lowering: both proofs, once, before any run. */
  method Admit(p: Program) returns (r: Result<(), PlanError>)
    requires WellFormed(p)
    ensures r.Ok? <==> Admissible(p)
    ensures r.Ok? <==> GraphAdmissible(p) && AllHosted(p)
    ensures r.Err? ==> FailsToFlatten(p, r.error) || r.error.ServiceCycle? || IsCapacityError(p, r.error)
  {
    CapacityIsHosting(p);
    var graph := ProveGraph(p);
    if graph.Err? { return Err(graph.error); }
    r := ProveCapacity(p, graph.value);
  }
}
