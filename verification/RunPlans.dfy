/** What a run plan promises, stated over the task structure alone. */
module RunPlans {
  import opened Graphs
  import opened Ids
  import opened Ordering
  import opened Programs
  import opened Flattening
  import opened FlattenFacts
  import opened PlanOrder
  import opened Services
  import opened Ports
  import opened Planner
  import opened Planning

  /** Some leaf below the task, at a chain of step names, requires the service. */
  ghost predicate LeafRequires(p: Program, task: TaskId, names: Path, service: ServiceId) {
    && LeafAt(p, task, names)
    && var leaf := p.tasks[Resolve(p, task, names).value]; service in leaf.requirements
  }

  ghost predicate SomeLeafRequires(p: Program, task: TaskId, service: ServiceId) {
    exists names :: LeafRequires(p, task, names, service)
  }

  lemma {:induction false} ListedRequirements(p: Program, root: TaskId, out: seq<PlanNode>, s: ServiceId)
    requires ListsLeavesOnce(p, root, out)
    ensures s in DirectRequirements(p, out) <==> SomeLeafRequires(p, root, s)
  {
    if s in DirectRequirements(p, out) {
      var n :| n in out && n.task in p.tasks && p.tasks[n.task].Leaf? && s in p.tasks[n.task].requirements;
      var i :| 0 <= i < |out| && out[i] == n;
      assert LeafRequires(p, root, out[i].path[1..], s);
    }
    if SomeLeafRequires(p, root, s) {
      var names :| LeafRequires(p, root, names, s);
      var q := [root] + names;
      assert q[1..] == names;
      var i :| 0 <= i < |out| && out[i].path == q;
      assert out[i] in out;
    }
  }

  /** A task's base is what its leaves require, no more and no less. */
  lemma {:induction false} BaseIsLeafRequirements(p: Program, task: TaskId, s: ServiceId)
    requires WellFormed(p) && Flattened(p, task).Ok?
    ensures s in Base(p, task) <==> SomeLeafRequires(p, task, s)
  {
    FlattenedIsPlanOrder(p, task);
    ListedRequirements(p, task, Flattened(p, task).value, s);
  }

  /** A service waits for another: it connects to it, or a leaf of its preparation requires it. */
  ghost predicate WaitsFor(p: Program, id: ServiceId, other: ServiceId) {
    && id in p.services
    && (other in p.services[id].connectsTo ||
        (p.services[id].prepare.Some? && SomeLeafRequires(p, p.services[id].prepare.value, other)))
  }

  lemma {:induction false} WaitsAreEdges(p: Program, id: ServiceId, other: ServiceId)
    requires WellFormed(p) && id in p.services
    requires p.services[id].prepare.Some? ==> Flattened(p, p.services[id].prepare.value).Ok?
    ensures WaitsFor(p, id, other) <==> other in ServiceGraph(p)[id]
  {
    if p.services[id].prepare.Some? { BaseIsLeafRequirements(p, p.services[id].prepare.value, other); }
  }

  /** In every run plan each service starts after all it waits for. */
  lemma {:induction false} ServicesStartAfterDependencies(
    p: Program, task: TaskId, slot: nat, plan: RunPlan, i: nat, other: ServiceId) returns (j: nat)
    requires WellFormed(p) && IsRunPlan(p, task, slot, plan) && i < |plan.services|
    requires WaitsFor(p, plan.services[i].service, other)
    ensures j < i && plan.services[j].service == other
  {
    var ids: seq<ServiceId> := PlannedIds(plan.services);
    assert PreparedBy(p, plan.services[i].service, plan.services[i].prepareNodes) by {
      assert plan.services[i] in plan.services;
    }
    WaitsAreEdges(p, ids[i], other);
    j := PlacedEarlier(ServiceGraph(p), ids, i, other);
  }

  lemma {:induction false} PlacedEarlier(
      g: map<ServiceId, set<ServiceId>>, ids: seq<ServiceId>, i: nat, other: ServiceId)
      returns (j: nat)
    requires Respects(ids, g, {}) && i < |ids| && ids[i] in g && other in g[ids[i]]
    ensures j < i && ids[j] == other
  {
    assert {} + Elements(ids[..i]) == Elements(ids[..i]);
    j := PlaceInPrefix(ids, i, other);
  }

  /** A service runs exactly when a leaf requires it or a running service waits for it. */
  lemma {:induction false} RunsExactlyWhatIsNeeded(
      p: Program, task: TaskId, slot: nat, plan: RunPlan, other: set<ServiceId>)
    requires WellFormed(p) && IsRunPlan(p, task, slot, plan)
    ensures Base(p, task) <= Elements(PlannedIds(plan.services))
    ensures IsClosedUnder(ServiceGraph(p), Elements(PlannedIds(plan.services)))
    ensures Base(p, task) <= other && IsClosedUnder(ServiceGraph(p), other) ==>
      Elements(PlannedIds(plan.services)) <= other
  {
    ServiceGraphClosed(p);
    BaseDeclared(p, task);
    ClosureIsLeast(ServiceGraph(p), Base(p, task), other);
  }

  /** In one plan no two endpoints share a port and all ports lie in the window. */
  lemma {:induction false} PlannedPortsNeverAlias(
    p: Program, task: TaskId, slot: nat, plan: RunPlan, i: nat, e: EndpointId, j: nat, f: EndpointId)
    requires WellFormed(p) && IsRunPlan(p, task, slot, plan) && i < |plan.services| && j < |plan.services|
    requires e in plan.services[i].endpointPorts && f in plan.services[j].endpointPorts
    ensures p.slotWindows[slot].start <= plan.services[i].endpointPorts[e] <= p.slotWindows[slot].end
    ensures (i, e) != (j, f) ==> plan.services[i].endpointPorts[e] != plan.services[j].endpointPorts[f]
  {
    var ids: seq<ServiceId> := Sorted(Required(p, task));
    var window := p.slotWindows[slot];
    RequiredDeclared(p, task);
    var ports :| Allocates(p, ids, window.start, ports) && CarriesPorts(plan.services, ports);
    assert plan.services[i] in plan.services && plan.services[j] in plan.services;
    assert i != j ==> PlannedIds(plan.services)[i] != PlannedIds(plan.services)[j];
    PortsNeverAlias(p, ids, window, ports, plan.services[i].service, e, plan.services[j].service, f);
  }

  /** Every declared endpoint of every started service gets a port. */
  lemma {:induction false} EveryEndpointBound(p: Program, task: TaskId, slot: nat, plan: RunPlan, i: nat)
    requires WellFormed(p) && IsRunPlan(p, task, slot, plan) && i < |plan.services|
    ensures plan.services[i].service in p.services
    ensures plan.services[i].endpointPorts.Keys == Elements(p.services[plan.services[i].service].endpoints)
  {
    var ids: seq<ServiceId> := Sorted(Required(p, task));
    var start := p.slotWindows[slot].start;
    var ports :| Allocates(p, ids, start, ports) && CarriesPorts(plan.services, ports);
    assert plan.services[i] in plan.services;
    var id := plan.services[i].service;
    assert id in Elements(ids);
    var k :| 0 <= k < |ids| && ids[k] == id;
    assert BlockAt(p, ids, start, k, ports[ids[k]]);
  }

  /** Plans of any two tasks in two slots with separate windows share no port. */
  lemma {:induction false} SlotsNeverShareAPlannedPort(
    p: Program, task: TaskId, slot: nat, plan: RunPlan, i: nat, e: EndpointId,
    task': TaskId, slot': nat, plan': RunPlan, j: nat, f: EndpointId)
    requires WellFormed(p) && IsRunPlan(p, task, slot, plan) && IsRunPlan(p, task', slot', plan')
    requires i < |plan.services| && e in plan.services[i].endpointPorts
    requires j < |plan'.services| && f in plan'.services[j].endpointPorts
    requires Separate(p.slotWindows[slot], p.slotWindows[slot'])
    ensures plan.services[i].endpointPorts[e] != plan'.services[j].endpointPorts[f]
  {
    PlannedPortsNeverAlias(p, task, slot, plan, i, e, i, e);
    PlannedPortsNeverAlias(p, task', slot', plan', j, f, j, f);
  }

  /** So once the placements are validated, runs in different slots never meet. */
  lemma {:induction false} ValidatedSlotsNeverShareAPort(
    p: Program, min: nat, max: nat, placements: map<nat, Placement>,
    task: TaskId, slot: nat, plan: RunPlan, i: nat, e: EndpointId,
    task': TaskId, slot': nat, plan': RunPlan, j: nat, f: EndpointId)
    requires WellFormed(p) && ValidPlacements(min, max, placements) && p.slotWindows == WindowsOf(placements)
    requires IsRunPlan(p, task, slot, plan) && IsRunPlan(p, task', slot', plan') && slot != slot'
    requires i < |plan.services| && e in plan.services[i].endpointPorts
    requires j < |plan'.services| && f in plan'.services[j].endpointPorts
    ensures plan.services[i].endpointPorts[e] != plan'.services[j].endpointPorts[f]
  {
    assert slot in placements && slot' in placements;
    assert Separate(p.slotWindows[slot], p.slotWindows[slot']) by {
      if slot < slot' {
        assert Separate(placements[slot].candidatePorts, placements[slot'].candidatePorts);
      } else {
        assert Separate(placements[slot'].candidatePorts, placements[slot].candidatePorts);
      }
    }
    SlotsNeverShareAPlannedPort(p, task, slot, plan, i, e, task', slot', plan', j, f);
  }
}
