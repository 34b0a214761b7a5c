/** Planning one run (execution/plan.rs `plan_program`, `logical_plan`,
    `bind_slot`), and the theorem that admission makes it total. */
module Planning {
  import opened Wrappers
  import opened Graphs
  import opened Ids
  import opened Ordering
  import opened Programs
  import opened Flattening
  import opened PlanOrder
  import opened Emission
  import opened Services
  import opened Ports
  import opened Planner
  import opened Hosting

  datatype ServiceBinding = ServiceBinding(
    service: ServiceId, prepareNodes: seq<PlanNode>, endpointPorts: map<EndpointId, u16>)
  datatype RunPlan = RunPlan(services: seq<ServiceBinding>, nodes: seq<PlanNode>)
  datatype Starting = Starting(service: ServiceId, prepareNodes: seq<PlanNode>)
  datatype LogicalPlan = LogicalPlan(services: seq<Starting>, nodes: seq<PlanNode>)

  // ---- Startup order ----

  /** Every required service once, each after all it waits for, and each pick
      the first id whose dependencies had all started. */
  ghost predicate IsStartupOrder(g: map<ServiceId, set<ServiceId>>, union: set<ServiceId>, order: seq<ServiceId>) {
    && Elements(order) == union
    && (forall i, j :: 0 <= i < j < |order| ==> order[i] != order[j])
    && Respects(order, g, {})
    && (forall i, j :: 0 <= i < j < |order| && Less(order[j], order[i]) ==>
          order[j] in g && !(g[order[j]] <= Elements(order[..i])))
  }

  lemma {:induction false} UnionDeclared(g: map<ServiceId, set<ServiceId>>, union: set<ServiceId>)
    requires union <= g.Keys
    ensures Declared(g, Sorted(union))
  {
    forall id <- Sorted(union) ensures id in g { assert id in Elements(Sorted(union)); }
  }

  lemma {:induction false} SortedDistinct(union: set<ServiceId>)
    ensures forall i, j :: 0 <= i < j < |Sorted(union)| ==> Sorted(union)[i] != Sorted(union)[j]
  {
    AscendingDistinct(Sorted(union));
  }

  lemma {:induction false} SameElements<T>(a: seq<T>, b: seq<T>)
    requires multiset(a) == multiset(b)
    ensures Elements(a) == Elements(b)
  {
    forall x ensures x in a <==> x in b { assert x in multiset(a) <==> x in multiset(b); }
  }

  /** What the greedy rule over sorted ids delivers. */
  lemma {:induction false} GreedyStartup(
      g: map<ServiceId, set<ServiceId>>, union: set<ServiceId>, order: seq<ServiceId>)
    requires union <= g.Keys && Declared(g, Sorted(union)) && Order(Sorted(union), g, {}) == Ok(order)
    ensures multiset(order) == multiset(Sorted(union)) && IsStartupOrder(g, union, order)
  {
    var ids: seq<ServiceId> := Sorted(union);
    OrderIsPermutation(ids, g, {});
    OrderRespects(ids, g, {});
    SameElements(order, ids);
    SortedDistinct(union);
    DistinctByMultiset(ids, order);
    forall i, j | 0 <= i < j < |order| && Less(order[j], order[i])
      ensures order[j] in g && !(g[order[j]] <= Elements(order[..i]))
    {
      EarlierStillWaits(g, ids, order, i, j);
    }
  }

  lemma {:induction false} EarlierStillWaits(
      g: map<ServiceId, set<ServiceId>>, ids: seq<ServiceId>, order: seq<ServiceId>, i: nat, j: nat)
    requires Declared(g, ids) && Order(ids, g, {}) == Ok(order) && Ascending(ids) && Elements(order) == Elements(ids)
    requires forall a, b :: 0 <= a < b < |ids| ==> ids[a] != ids[b]
    requires forall a, b :: 0 <= a < b < |order| ==> order[a] != order[b]
    requires i < j < |order| && Less(order[j], order[i])
    ensures order[j] in g && !(g[order[j]] <= Elements(order[..i]))
  {
    assert order[i] in Elements(order) && order[j] in Elements(order);
    var a :| 0 <= a < |ids| && ids[a] == order[j];
    var b :| 0 <= b < |ids| && ids[b] == order[i];
    LessIrreflexive(order[j]);
    if b < a { LessTransitive(order[j], order[i], order[j]); }
    assert a < b;
    assert order[j] !in order[..i] by {
      forall m | 0 <= m < i ensures order[..i][m] != order[j] { assert order[..i][m] == order[m]; }
    }
    OrderTakesEarliest(ids, g, {}, order, i, a, b);
    assert {} + Elements(order[..i]) == Elements(order[..i]);
  }

  /** In an acyclic closed graph the greedy rule never gets stuck on a closed union. */
  lemma {:induction false} AcyclicStarts(g: map<ServiceId, set<ServiceId>>, base: set<ServiceId>)
    requires Acyclic(g) && Closed(g) && base <= g.Keys
    ensures Declared(g, Sorted(Closure(g, base))) && Order(Sorted(Closure(g, base)), g, {}).Ok?
  {
    var union := Closure(g, base);
    UnionDeclared(g, union);
    ClosureIsLeast(g, base, base);
    AcyclicHasSinks(g);
    forall id <- Sorted(union) ensures g[id] <= {} + Elements(Sorted(union)) { assert id in union; }
    SinksOrder(Sorted(union), g, {});
  }

  ghost predicate Startable(g: map<ServiceId, set<ServiceId>>, union: set<ServiceId>)
    requires union <= g.Keys
  {
    UnionDeclared(g, union);
    Order(Sorted(union), g, {}).Ok?
  }

  // ---- The logical plan ----

  ghost predicate KnownBases(p: Program, bases: Bases) {
    forall task :: task in bases ==> bases[task] == Base(p, task) && task in FlatteningTasks(p)
  }

  ghost predicate PrepareIn(p: Program, id: ServiceId, tasks: set<TaskId>)
    requires id in p.services
  {
    p.services[id].prepare.Some? ==> p.services[id].prepare.value in tasks
  }

  ghost predicate PreparesFlatten(p: Program) {
    forall id :: id in p.services ==> PrepareIn(p, id, FlatteningTasks(p))
  }

  method FlattenPrepare(p: Program, id: ServiceId, before: Bases) returns (r: Result<Bases, PlanError>)
    requires WellFormed(p) && id in p.services && KnownBases(p, before)
    ensures r.Ok? <==> PrepareIn(p, id, FlatteningTasks(p))
    ensures r.Ok? ==> KnownBases(p, r.value) && before.Keys <= r.value.Keys && PrepareIn(p, id, r.value.Keys)
    ensures r.Err? ==> FailsToFlatten(p, r.error)
  {
    if p.services[id].prepare.None? || p.services[id].prepare.value in before { return Ok(before); }
    var task := p.services[id].prepare.value;
    var base := TaskBase(p, task);
    if base.Err? { return Err(base.error); }
    return Ok(before[task := base.value]);
  }

  method FlattenPrepares(p: Program) returns (r: Result<Bases, PlanError>)
    requires WellFormed(p)
    ensures r.Ok? <==> PreparesFlatten(p)
    ensures r.Ok? ==> PrepareBases(p, r.value)
    ensures r.Err? ==> FailsToFlatten(p, r.error)
  {
    var bases: Bases := map[];
    ghost var flattening: set<TaskId> := FlatteningTasks(p);
    var ids := SortIds(p.services.Keys);
    for i := 0 to |ids|
      invariant KnownBases(p, bases)
      invariant forall j :: 0 <= j < i ==>
        ids[j] in p.services && PrepareIn(p, ids[j], bases.Keys) && PrepareIn(p, ids[j], flattening)
    {
      assert ids[i] in Elements(ids);
      var next := FlattenPrepare(p, ids[i], bases);
      if next.Err? { return Err(next.error); }
      bases := next.value;
    }
    forall id | id in p.services ensures PrepareIn(p, id, bases.Keys) && PrepareIn(p, id, flattening) {
      assert id in Elements(ids);
    }
    KnownPrepareBases(p, bases);
    return Ok(bases);
  }

  lemma {:induction false} KnownPrepareBases(p: Program, bases: Bases)
    requires KnownBases(p, bases) && forall id :: id in p.services ==> PrepareIn(p, id, bases.Keys)
    ensures PrepareBases(p, bases)
  {
    forall id | id in p.services ensures PrepareIn(p, id, bases.Keys) {}
  }

  /** The nodes run before a service starts. */
  ghost predicate PreparedBy(p: Program, id: ServiceId, nodes: seq<PlanNode>) {
    id in p.services &&
    match p.services[id].prepare
    case None => nodes == []
    case Some(task) => Flattened(p, task) == Ok(nodes)
  }

  method PrepareNodes(p: Program, id: ServiceId) returns (r: Result<seq<PlanNode>, PlanError>)
    requires WellFormed(p) && id in p.services
    ensures r.Ok? <==> PrepareIn(p, id, FlatteningTasks(p))
    ensures r.Ok? ==> PreparedBy(p, id, r.value)
    ensures r.Err? ==> FailsToFlatten(p, r.error)
  {
    if p.services[id].prepare.None? { return Ok([]); }
    r := Flatten(p, p.services[id].prepare.value);
  }

  function ServiceIds(services: seq<Starting>): (ids: seq<ServiceId>)
    ensures |ids| == |services| && forall i :: 0 <= i < |ids| ==> ids[i] == services[i].service
  {
    seq(|services|, i requires 0 <= i < |services| => services[i].service)
  }

  ghost predicate AllPrepared(p: Program, services: seq<Starting>) {
    forall s <- services :: PreparedBy(p, s.service, s.prepareNodes)
  }

  method StartNext(p: Program, id: ServiceId, started: seq<Starting>) returns (r: Result<seq<Starting>, PlanError>)
    requires WellFormed(p) && id in p.services && AllPrepared(p, started)
    ensures r.Ok? <==> PrepareIn(p, id, FlatteningTasks(p))
    ensures r.Ok? ==> ServiceIds(r.value) == ServiceIds(started) + [id] && AllPrepared(p, r.value)
    ensures r.Err? ==> FailsToFlatten(p, r.error)
  {
    var nodes := PrepareNodes(p, id);
    if nodes.Err? { return Err(nodes.error); }
    return Ok(started + [Starting(id, nodes.value)]);
  }

  method StartAll(p: Program, order: seq<ServiceId>) returns (r: Result<seq<Starting>, PlanError>)
    requires WellFormed(p) && forall id <- order :: id in p.services
    ensures r.Ok? <==> forall id <- order :: PrepareIn(p, id, FlatteningTasks(p))
    ensures r.Ok? ==> ServiceIds(r.value) == order && AllPrepared(p, r.value)
    ensures r.Err? ==> FailsToFlatten(p, r.error)
  {
    var services: seq<Starting> := [];
    ghost var flattening: set<TaskId> := FlatteningTasks(p);
    for i := 0 to |order|
      invariant ServiceIds(services) == order[..i] && AllPrepared(p, services)
      invariant forall j :: 0 <= j < i ==> PrepareIn(p, order[j], flattening)
    {
      var next := StartNext(p, order[i], services);
      if next.Err? { return Err(next.error); }
      services := next.value;
    }
    return Ok(services);
  }

  ghost predicate LogicalSucceeds(p: Program, task: TaskId)
    requires WellFormed(p)
  {
    RequiredDeclared(p, task);
    Flattened(p, task).Ok? && PreparesFlatten(p) && Startable(ServiceGraph(p), Required(p, task))
  }

  ghost predicate IsLogicalPlan(p: Program, task: TaskId, plan: LogicalPlan) {
    && Flattened(p, task) == Ok(plan.nodes)
    && IsStartupOrder(ServiceGraph(p), Required(p, task), ServiceIds(plan.services))
    && AllPrepared(p, plan.services)
  }

  ghost predicate IsLogicalError(p: Program, task: TaskId, e: PlanError)
    requires WellFormed(p)
  {
    RequiredDeclared(p, task);
    || Flattened(p, task) == Err(e)
    || FailsToFlatten(p, e)
    || (e.StartupStuck? && !Startable(ServiceGraph(p), Required(p, task)))
  }

  method StartupOrder(p: Program, base: set<ServiceId>, edges: Edges, ghost g: map<ServiceId, set<ServiceId>>)
    returns (r: Result<seq<ServiceId>, PlanError>)
    requires EdgesOf(edges, g) && Closed(g) && base <= g.Keys
    ensures r.Ok? <==> Startable(g, Closure(g, base))
    ensures r.Ok? ==> IsStartupOrder(g, Closure(g, base), r.value)
    ensures r.Err? ==> r.error.StartupStuck?
  {
    var union := CloseUnion(base, edges, g);
    var ids := SortIds(union);
    SortedIs(ids, union);
    UnionDeclared(g, union);
    var targets := map id | id in edges :: Targets(edges[id]);
    assert targets == g;
    var order := Schedule(ids, targets);
    if order.Err? { return Err(StartupStuck(order.error)); }
    GreedyStartup(g, union, order.value);
    return Ok(order.value);
  }

  method PlanLogically(p: Program, task: TaskId) returns (r: Result<LogicalPlan, PlanError>)
    requires WellFormed(p)
    ensures r.Ok? <==> LogicalSucceeds(p, task)
    ensures r.Ok? ==> IsLogicalPlan(p, task, r.value)
    ensures r.Err? ==> IsLogicalError(p, task, r.error)
  {
    var nodes := Flatten(p, task);
    if nodes.Err? { return Err(nodes.error); }
    var bases := FlattenPrepares(p);
    if bases.Err? { return Err(bases.error); }
    var started := StartServices(p, task, DirectRequirements(p, nodes.value), bases.value);
    if started.Err? { return Err(started.error); }
    return Ok(LogicalPlan(started.value, nodes.value));
  }

  method StartServices(p: Program, task: TaskId, base: set<ServiceId>, bases: Bases)
    returns (r: Result<seq<Starting>, PlanError>)
    requires WellFormed(p) && PreparesFlatten(p) && PrepareBases(p, bases) && base == Base(p, task)
    ensures Required(p, task) <= p.services.Keys
    ensures r.Ok? <==> Startable(ServiceGraph(p), Required(p, task))
    ensures r.Ok? ==> IsStartupOrder(ServiceGraph(p), Required(p, task), ServiceIds(r.value)) && AllPrepared(p, r.value)
    ensures r.Err? ==> r.error.StartupStuck?
  {
    ghost var g: map<ServiceId, set<ServiceId>> := ServiceGraph(p);
    ServiceGraphClosed(p);
    BaseDeclared(p, task);
    var edges := ServiceEdges(p, bases);
    var order := StartupOrder(p, base, edges, g);
    if order.Err? { return Err(order.error); }
    assert forall id <- order.value :: id in Elements(order.value);
    r := StartAll(p, order.value);
  }

  // ---- Binding a slot ----

  ghost predicate DistinctServices(services: seq<Starting>) {
    forall i, j :: 0 <= i < j < |services| ==> services[i].service != services[j].service
  }

  /** Each started service with its preparation and its share of the ports. */
  ghost predicate Binds(services: seq<Starting>, ports: Allocation, bound: seq<ServiceBinding>) {
    && |bound| == |services|
    && forall i :: 0 <= i < |services| ==>
         && services[i].service in ports
         && bound[i] == ServiceBinding(services[i].service, services[i].prepareNodes, ports[services[i].service])
  }

  /** The slot's window holds every endpoint of the started services. */
  ghost predicate Hosts(p: Program, slot: nat, services: seq<Starting>)
    requires KnownServices(p, ServiceIds(services)) && Validated(p)
  {
    slot in p.slotWindows && EndpointTotal(p, ServiceIds(services)) <= p.slotWindows[slot].Capacity()
  }

  method BindSlot(p: Program, logical: LogicalPlan, slot: nat) returns (r: Result<RunPlan, PlanError>)
    requires Validated(p) && DistinctServices(logical.services) && KnownServices(p, ServiceIds(logical.services))
    ensures r.Ok? <==> Hosts(p, slot, logical.services)
    ensures r.Ok? <==> Hosted(p, slot, Elements(ServiceIds(logical.services)))
    ensures r.Ok? ==> r.value.nodes == logical.nodes && exists ports ::
      && Allocates(p, Sorted(Elements(ServiceIds(logical.services))), p.slotWindows[slot].start, ports)
      && Binds(logical.services, ports, r.value.services)
    ensures r.Err? ==> r.error == if slot !in p.slotWindows then NoWindow(slot)
      else WindowTooSmall(slot, EndpointTotal(p, ServiceIds(logical.services)), |logical.services|)
  {
    hide Hostable, EndpointsOf, EndpointTotal, Allocates;
    if slot !in p.slotWindows { return Err(NoWindow(slot)); }
    var window := p.slotWindows[slot];
    var order := ServiceIds(logical.services);
    CapacityHosts(p, order, window);
    var demand := SumEndpoints(p, order);
    if demand > window.Capacity() { return Err(WindowTooSmall(slot, demand, |logical.services|)); }
    var canonical := SortIds(set id | id in order);
    SortedIs(canonical, Elements(order));
    forall id <- canonical ensures id in p.services { assert id in Elements(canonical); }
    var ports := AllocatePorts(p, canonical, window.start);
    var bound: seq<ServiceBinding> := [];
    for i := 0 to |logical.services|
      invariant Binds(logical.services[..i], ports, bound)
    {
      assert order[i] in Elements(order);
      var starting := logical.services[i];
      bound := bound + [ServiceBinding(starting.service, starting.prepareNodes, ports[starting.service])];
    }
    assert logical.services[..|logical.services|] == logical.services;
    return Ok(RunPlan(bound, logical.nodes));
  }

  // ---- One run ----

  function PlannedIds(services: seq<ServiceBinding>): (ids: seq<ServiceId>)
    ensures |ids| == |services| && forall i :: 0 <= i < |ids| ==> ids[i] == services[i].service
  {
    seq(|services|, i requires 0 <= i < |services| => services[i].service)
  }

  ghost predicate CarriesPorts(services: seq<ServiceBinding>, ports: Allocation) {
    forall s <- services :: s.service in ports && s.endpointPorts == ports[s.service]
  }

  ghost predicate BindingsPrepared(p: Program, services: seq<ServiceBinding>) {
    forall s <- services :: PreparedBy(p, s.service, s.prepareNodes)
  }

  /** The plan of one run: the task's nodes, its services in startup order with
      their preparation, and ports allocated in id order from the window. */
  ghost predicate IsRunPlan(p: Program, task: TaskId, slot: nat, plan: RunPlan)
    requires WellFormed(p)
  {
    && Flattened(p, task) == Ok(plan.nodes)
    && IsStartupOrder(ServiceGraph(p), Required(p, task), PlannedIds(plan.services))
    && BindingsPrepared(p, plan.services)
    && slot in p.slotWindows && Demand(p, task) <= p.slotWindows[slot].Capacity()
    && exists ports ::
         Allocates(p, Sorted(Required(p, task)), p.slotWindows[slot].start, ports) && CarriesPorts(plan.services, ports)
  }

  ghost predicate PlanSucceeds(p: Program, task: TaskId, slot: nat)
    requires WellFormed(p)
  {
    LogicalSucceeds(p, task) && slot in p.slotWindows && Demand(p, task) <= p.slotWindows[slot].Capacity()
  }

  lemma {:induction false} DistinctPermutation<T>(a: seq<T>, b: seq<T>)
    requires Elements(a) == Elements(b)
    requires forall i, j :: 0 <= i < j < |a| ==> a[i] != a[j]
    requires forall i, j :: 0 <= i < j < |b| ==> b[i] != b[j]
    ensures multiset(a) == multiset(b)
  {
    forall x ensures multiset(a)[x] == multiset(b)[x] {
      SingleOccurrence(a, x);
      SingleOccurrence(b, x);
      assert x in Elements(a) <==> x in multiset(a);
      assert x in Elements(b) <==> x in multiset(b);
    }
  }

  /** Summing endpoints in startup order gives the demand admission checked. */
  lemma {:induction false} StartupDemand(p: Program, task: TaskId, order: seq<ServiceId>)
    requires WellFormed(p) && IsStartupOrder(ServiceGraph(p), Required(p, task), order)
    ensures KnownServices(p, order) && EndpointTotal(p, order) == Demand(p, task)
  {
    var ids: seq<ServiceId> := Sorted(Required(p, task));
    RequiredDeclared(p, task);
    SortedDistinct(Required(p, task));
    DistinctPermutation(ids, order);
    EndpointTotalPermutes(p, ids, order);
  }

  lemma {:induction false} BoundRunPlan(
      p: Program, task: TaskId, slot: nat, logical: LogicalPlan, ports: Allocation, plan: RunPlan)
    requires WellFormed(p) && IsLogicalPlan(p, task, logical) && plan.nodes == logical.nodes
    requires slot in p.slotWindows && Demand(p, task) <= p.slotWindows[slot].Capacity()
    requires Allocates(p, Sorted(Required(p, task)), p.slotWindows[slot].start, ports)
    requires Binds(logical.services, ports, plan.services)
    ensures IsRunPlan(p, task, slot, plan)
  {
    BoundServices(p, logical.services, ports, plan.services);
  }

  lemma {:induction false} BoundServices(
      p: Program, services: seq<Starting>, ports: Allocation, bound: seq<ServiceBinding>)
    requires AllPrepared(p, services) && Binds(services, ports, bound)
    ensures PlannedIds(bound) == ServiceIds(services) && BindingsPrepared(p, bound) && CarriesPorts(bound, ports)
  {
    forall s <- bound
      ensures PreparedBy(p, s.service, s.prepareNodes) && s.service in ports && s.endpointPorts == ports[s.service]
    {
      var i :| 0 <= i < |bound| && bound[i] == s;
      assert services[i] in services;
    }
  }

  ghost predicate IsPlanningError(p: Program, task: TaskId, slot: nat, e: PlanError)
    requires WellFormed(p)
  {
    || IsLogicalError(p, task, e)
    || (slot !in p.slotWindows && e == NoWindow(slot))
    || (slot in p.slotWindows && e.WindowTooSmall? && e.slot == slot && e.endpoints == Demand(p, task))
  }

  /** Planning one run succeeds exactly when it can, with the run's plan. */
  method PlanProgram(p: Program, task: TaskId, slot: nat) returns (r: Result<RunPlan, PlanError>)
    requires WellFormed(p)
    ensures r.Ok? <==> PlanSucceeds(p, task, slot)
    ensures r.Ok? <==> LogicalSucceeds(p, task) && TaskHosted(p, slot, task)
    ensures r.Ok? ==> IsRunPlan(p, task, slot, r.value)
    ensures r.Err? ==> IsPlanningError(p, task, slot, r.error)
  {
    if slot in p.slotWindows { DemandIsHosted(p, slot, task); }
    var planned := PlanLogically(p, task);
    if planned.Err? { return Err(planned.error); }
    ghost var ids: seq<ServiceId> := ServiceIds(planned.value.services);
    StartupDemand(p, task, ids);
    r := BindSlot(p, planned.value, slot);
    if r.Ok? {
      ghost var ports :|
        && Allocates(p, Sorted(Elements(ids)), p.slotWindows[slot].start, ports)
        && Binds(planned.value.services, ports, r.value.services);
      BoundRunPlan(p, task, slot, planned.value, ports, r.value);
    }
  }

  // ---- Admission makes planning total ----

  /** Whatever admission accepts, no run of it can fail to be planned: not by a
      task cycle, a step cycle, a startup cycle or a window too small. */
  lemma {:induction false} AdmissionMakesPlanningTotal(p: Program, task: TaskId, slot: nat)
    requires WellFormed(p) && Admissible(p) && task in p.tasks && slot in p.slotWindows
    ensures PlanSucceeds(p, task, slot)
  {
    ServiceGraphClosed(p);
    BaseDeclared(p, task);
    AcyclicStarts(ServiceGraph(p), Base(p, task));
    assert task in FlatteningTasks(p);
    forall id | id in p.services ensures PrepareIn(p, id, FlatteningTasks(p)) {}
    assert FitsSlot(p, slot);
  }

  /** With a slot to run in and no service outside every task's needs,
      admission rejects nothing that could always be planned. */
  lemma {:induction false} PlanningTotalMakesAdmissible(p: Program, window: nat)
    requires WellFormed(p) && window in p.slotWindows
    requires forall id :: id in p.services ==> exists task :: task in p.tasks && id in Required(p, task)
    requires forall task, slot :: task in p.tasks && slot in p.slotWindows ==> PlanSucceeds(p, task, slot)
    ensures Admissible(p)
  {
    PlannedFits(p);
    PlannedFlatten(p, window);
    PlannedAcyclic(p, window);
  }

  lemma {:induction false} PlannedFlatten(p: Program, slot: nat)
    requires WellFormed(p) && forall task :: task in p.tasks ==> PlanSucceeds(p, task, slot)
    ensures AllFlatten(p)
  {
    forall task | task in p.tasks ensures task in FlatteningTasks(p) { assert PlanSucceeds(p, task, slot); }
  }

  lemma {:induction false} PlannedAcyclic(p: Program, slot: nat)
    requires WellFormed(p) && forall task :: task in p.tasks ==> PlanSucceeds(p, task, slot)
    requires forall id :: id in p.services ==> exists task :: task in p.tasks && id in Required(p, task)
    ensures Acyclic(ServiceGraph(p))
  {
    forall id | id in ServiceGraph(p) ensures !Reaches(ServiceGraph(p), id, id) {
      var task :| task in p.tasks && id in Required(p, task);
      PlannedIsAcyclic(p, task, slot, id);
    }
  }

  lemma {:induction false} PlannedFits(p: Program)
    requires WellFormed(p)
    requires forall task, slot :: task in p.tasks && slot in p.slotWindows ==> PlanSucceeds(p, task, slot)
    ensures CapacitySuffices(p)
  {
    forall slot | slot in p.slotWindows ensures FitsSlot(p, slot) {
      forall task | task in p.tasks ensures Demand(p, task) <= p.slotWindows[slot].Capacity() {
        assert PlanSucceeds(p, task, slot);
      }
    }
  }

  lemma {:induction false} PlannedIsAcyclic(p: Program, task: TaskId, slot: nat, id: ServiceId)
    requires WellFormed(p) && PlanSucceeds(p, task, slot) && id in Required(p, task)
    ensures !Reaches(ServiceGraph(p), id, id)
  {
    ServiceGraphClosed(p);
    BaseDeclared(p, task);
    StartedIsAcyclic(ServiceGraph(p), Base(p, task), id);
  }

  lemma {:induction false} StartedIsAcyclic(g: map<ServiceId, set<ServiceId>>, base: set<ServiceId>, id: ServiceId)
    requires Closed(g) && base <= g.Keys && id in Closure(g, base) && Startable(g, Closure(g, base))
    ensures !Reaches(g, id, id)
  {
    var union := Closure(g, base);
    UnionDeclared(g, union);
    var order: seq<ServiceId> := Order(Sorted(union), g, {}).value;
    GreedyStartup(g, union, order);
    assert id in Elements(order);
    NoWayBackInOrder(g, order, id);
  }

  lemma {:induction false} NoWayBackInOrder(g: map<ServiceId, set<ServiceId>>, order: seq<ServiceId>, id: ServiceId)
    requires Respects(order, g, {}) && id in order && forall i, j :: 0 <= i < j < |order| ==> order[i] != order[j]
    ensures !Reaches(g, id, id)
  {
    forall walk | IsWalk(g, walk) && |walk| >= 2 && walk[0] == id ensures walk[|walk| - 1] != id {
      var at :| 0 <= at < |order| && order[at] == id;
      var i := PositionFalls(g, order, walk, at);
    }
  }

  /** Along a walk the startup position only falls. */
  lemma {:induction false} PositionFalls(
      g: map<ServiceId, set<ServiceId>>, order: seq<ServiceId>, walk: seq<ServiceId>, at: nat)
    returns (i: nat)
    requires IsWalk(g, walk) && Respects(order, g, {}) && at < |order| && order[at] == walk[0]
    ensures i <= at && order[i] == walk[|walk| - 1] && (|walk| >= 2 ==> i < at)
    decreases |walk|
  {
    if |walk| == 1 {
      i := at;
    } else {
      assert walk[1] in g[walk[0]] && g[order[at]] <= {} + Elements(order[..at]);
      var next := PlaceInPrefix(order, at, walk[1]);
      var tail := walk[1..];
      forall k | 0 <= k < |tail| - 1 ensures tail[k + 1] in g[tail[k]] { assert walk[k + 2] in g[walk[k + 1]]; }
      i := PositionFalls(g, order, tail, next);
    }
  }
}
