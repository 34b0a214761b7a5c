/** The service dependency graph: the union a task needs and the proof that
    the graph has no cycle (execution/plan.rs). */
module Services {
  import opened Wrappers
  import opened Graphs
  import opened Ids
  import opened Programs
  import opened Flattening

  datatype EdgeKind = ConnectsTo | PrepareRequires
  datatype Edge = Edge(target: ServiceId, kind: EdgeKind)
  type Edges = map<ServiceId, seq<Edge>>

  /** Services required directly by the leaves of a flattened task. */
  function DirectRequirements(p: Program, nodes: seq<PlanNode>): set<ServiceId> {
    set n, s | n in nodes && n.task in p.tasks && p.tasks[n.task].Leaf? && s in p.tasks[n.task].requirements :: s
  }

  /** The services a task's own leaves require. */
  function Base(p: Program, task: TaskId): set<ServiceId> {
    match Flattened(p, task)
    case Err(_) => {}
    case Ok(nodes) => DirectRequirements(p, nodes)
  }

  function Targets(edges: seq<Edge>): set<ServiceId> {
    set e | e in edges :: e.target
  }

  /** A service waits for what it connects to and for what its prepare leaves require. */
  function Dependencies(p: Program, service: Service): set<ServiceId> {
    IdSet(service.connectsTo) + match service.prepare case None => {} case Some(task) => Base(p, task)
  }

  function IdSet(ids: seq<ServiceId>): set<ServiceId> {
    set id | id in ids
  }

  function ServiceGraph(p: Program): map<ServiceId, set<ServiceId>> {
    map id | id in p.services :: Dependencies(p, p.services[id])
  }

  function Targeted(ids: seq<ServiceId>, kind: EdgeKind): (r: seq<Edge>)
    ensures Targets(r) == IdSet(ids)
  {
    var r := seq(|ids|, i requires 0 <= i < |ids| => Edge(ids[i], kind));
    assert Targets(r) == IdSet(ids) by {
      forall id ensures id in Targets(r) <==> id in ids {
        if i :| 0 <= i < |ids| && ids[i] == id { assert r[i] in r && r[i].target == id; }
      }
    }
    r
  }

  ghost predicate EdgesOf(edges: Edges, g: map<ServiceId, set<ServiceId>>) {
    edges.Keys == g.Keys && forall id :: id in g ==> Targets(edges[id]) == g[id]
  }

  /** Base requirements stay within declared services. */
  lemma {:induction false} BaseDeclared(p: Program, task: TaskId)
    requires ReferencesResolve(p)
    ensures Base(p, task) <= p.services.Keys
  {
  }

  lemma {:induction false} ServiceGraphClosed(p: Program)
    requires ReferencesResolve(p)
    ensures Closed(ServiceGraph(p))
  {
    forall id | id in p.services ensures Dependencies(p, p.services[id]) <= p.services.Keys {
      if p.services[id].prepare.Some? { BaseDeclared(p, p.services[id].prepare.value); }
    }
  }

  /** The base of every prepare task, ready to look up. */
  ghost predicate PrepareBases(p: Program, bases: map<TaskId, set<ServiceId>>) {
    forall id :: id in p.services && p.services[id].prepare.Some? ==>
      var task := p.services[id].prepare.value; task in bases && bases[task] == Base(p, task)
  }

  method EdgesFrom(p: Program, id: ServiceId, bases: map<TaskId, set<ServiceId>>) returns (out: seq<Edge>)
    requires PrepareBases(p, bases) && id in p.services
    ensures Targets(out) == ServiceGraph(p)[id]
  {
    var service := p.services[id];
    out := Targeted(service.connectsTo, ConnectsTo);
    if service.prepare.Some? {
      var required := SortIds(bases[service.prepare.value]);
      var prepared := Targeted(required, PrepareRequires);
      TargetsJoin(out, prepared);
      assert IdSet(required) == Elements(required);
      out := out + prepared;
    }
  }

  ghost predicate EdgesFor(g: map<ServiceId, set<ServiceId>>, ids: set<ServiceId>, edges: Edges) {
    edges.Keys == ids <= g.Keys && forall id :: id in ids ==> Targets(edges[id]) == g[id]
  }

  method ServiceEdges(p: Program, bases: map<TaskId, set<ServiceId>>) returns (edges: Edges)
    requires PrepareBases(p, bases)
    ensures EdgesOf(edges, ServiceGraph(p))
  {
    ghost var g: map<ServiceId, set<ServiceId>> := ServiceGraph(p);
    edges := map[];
    var ids := SortIds(p.services.Keys);
    for i := 0 to |ids|
      invariant EdgesFor(g, Elements(ids[..i]), edges)
    {
      assert ids[i] in Elements(ids);
      var out := EdgesFrom(p, ids[i], bases);
      assert ids[..i + 1] == ids[..i] + [ids[i]];
      edges := edges[ids[i] := out];
    }
    assert ids[..|ids|] == ids;
  }

  lemma {:induction false} TargetsJoin(a: seq<Edge>, b: seq<Edge>)
    ensures Targets(a + b) == Targets(a) + Targets(b)
  {
    assert forall e :: e in a + b <==> e in a || e in b;
    forall id ensures id in Targets(a + b) <==> id in Targets(a) || id in Targets(b) {
      if e :| e in a && e.target == id { assert e in a + b; }
      if e :| e in b && e.target == id { assert e in a + b; }
    }
  }

  // ---- The union closed under dependencies ----

  /** Everything connected from the base. */
  ghost function Closure(g: map<ServiceId, set<ServiceId>>, base: set<ServiceId>): set<ServiceId> {
    set v | v in g && exists b :: b in base && Connects(g, b, v)
  }

  ghost predicate IsClosedUnder(g: map<ServiceId, set<ServiceId>>, union: set<ServiceId>) {
    forall v :: v in union && v in g ==> g[v] <= union
  }

  /** The closure is the least superset of the base closed under the edges. */
  lemma {:induction false} ClosureIsLeast(
      g: map<ServiceId, set<ServiceId>>, base: set<ServiceId>, other: set<ServiceId>)
    requires Closed(g) && base <= g.Keys
    ensures base <= Closure(g, base) && IsClosedUnder(g, Closure(g, base))
    ensures base <= other && IsClosedUnder(g, other) ==> Closure(g, base) <= other
  {
    forall b | b in base ensures b in Closure(g, base) { ConnectsSelf(g, b); }
    forall v, d | v in Closure(g, base) && d in g[v] ensures d in Closure(g, base) {
      var b :| b in base && Connects(g, b, v);
      ConnectsThen(g, b, v, d);
    }
    if base <= other && IsClosedUnder(g, other) {
      forall v | v in Closure(g, base) ensures v in other {
        var b :| b in base && Connects(g, b, v);
        var walk :| IsWalk(g, walk) && walk[0] == b && walk[|walk| - 1] == v;
        ClosedSetKeepsWalk(g, other, walk);
      }
    }
  }

  lemma {:induction false} LastElement<T>(s: seq<T>)
    requires s != []
    ensures Elements(s) == Elements(s[..|s| - 1]) + {s[|s| - 1]}
  {
    assert s == s[..|s| - 1] + [s[|s| - 1]];
  }

  /** The worklist: it ends closed and never leaves a closed superset of the base. */
  method Saturate(
      base: set<ServiceId>, edges: Edges, ghost g: map<ServiceId, set<ServiceId>>, ghost limit: set<ServiceId>)
    returns (union: set<ServiceId>)
    requires EdgesOf(edges, g) && base <= limit <= g.Keys && IsClosedUnder(g, limit)
    ensures base <= union <= limit && IsClosedUnder(g, union)
  {
    union := base;
    var pending := SortIds(base);
    while pending != []
      invariant base <= union <= limit && Elements(pending) <= union
      invariant forall v :: v in union && v !in Elements(pending) ==> g[v] <= union
      decreases g.Keys - union, |pending|
    {
      var id := pending[|pending| - 1];
      ghost var before := union;
      LastElement(pending);
      union, pending := AddTargets(edges[id], union, pending[..|pending| - 1]);
      assert union != before ==> g.Keys - union < g.Keys - before;
    }
  }

  method CloseUnion(base: set<ServiceId>, edges: Edges, ghost g: map<ServiceId, set<ServiceId>>)
    returns (union: set<ServiceId>)
    requires EdgesOf(edges, g) && Closed(g) && base <= g.Keys
    ensures union == Closure(g, base)
  {
    ClosureIsLeast(g, base, base);
    union := Saturate(base, edges, g, Closure(g, base));
    ClosureIsLeast(g, base, union);
  }

  /** Targets not yet in the union join it and are looked at later. */
  method AddTargets(out: seq<Edge>, before: set<ServiceId>, waiting: seq<ServiceId>)
    returns (union: set<ServiceId>, pending: seq<ServiceId>)
    requires Elements(waiting) <= before
    ensures union == before + Targets(out) && Elements(pending) == Elements(waiting) + (union - before)
    ensures union == before ==> pending == waiting
  {
    union, pending := before, waiting;
    for i := 0 to |out|
      invariant union == before + Targets(out[..i])
      invariant Elements(pending) == Elements(waiting) + (union - before)
      invariant union == before ==> pending == waiting
    {
      var target := out[i].target;
      assert out[..i + 1] == out[..i] + [out[i]];
      TargetsJoin(out[..i], [out[i]]);
      assert Targets([out[i]]) == {target};
      if target !in union {
        assert Elements(pending + [target]) == Elements(pending) + {target};
        union, pending := union + {target}, pending + [target];
      }
    }
    assert out[..|out|] == out;
  }

  // ---- Cycle detection ----

  /** The edges of a reported trail, starting after `from`. */
  ghost predicate IsTrail(g: map<ServiceId, set<ServiceId>>, from: ServiceId, trail: seq<ServiceId>) {
    IsWalk(g, [from] + trail)
  }

  /** Depth-first search for a way back to `start`. Every vertex newly seen by
      a search that finds none has all its targets seen and none is `start`. */
  method Visit(edges: Edges, start: ServiceId, current: ServiceId, trail: seq<ServiceId>, seen: set<ServiceId>,
               ghost g: map<ServiceId, set<ServiceId>>)
    returns (cycle: Option<seq<ServiceId>>, marked: set<ServiceId>)
    requires EdgesOf(edges, g) && Closed(g) && start in g && current in g && seen <= g.Keys
    requires IsTrail(g, start, trail) && ([start] + trail)[|trail|] == current
    ensures seen <= marked <= g.Keys
    ensures cycle.Some? ==>
      IsTrail(g, start, cycle.value) && cycle.value != [] && cycle.value[|cycle.value| - 1] == start
    ensures cycle.None? ==> forall v :: v in marked - seen + {current} ==> g[v] <= marked && start !in g[v]
    decreases g.Keys - seen
  {
    cycle, marked := None, seen;
    var out := edges[current];
    for i := 0 to |out|
      invariant seen <= marked <= g.Keys && cycle == None
      invariant forall v :: v in marked - seen ==> g[v] <= marked && start !in g[v]
      invariant Targets(out[..i]) <= marked && start !in Targets(out[..i])
    {
      var target := out[i].target;
      assert out[i] in out && target in Targets(out) && target in g[current];
      assert out[..i + 1] == out[..i] + [out[i]];
      TrailGrows(g, start, current, trail, target);
      if target == start {
        cycle := Some(trail + [target]);
        return;
      }
      if target !in marked {
        ghost var before := marked;
        assert target in g.Keys - before;
        cycle, marked := Visit(edges, start, target, trail + [target], marked + {target}, g);
        if cycle.Some? { return; }
        assert forall v :: v in marked - seen ==> v in before - seen || v in marked - (before + {target}) + {target};
      }
    }
    assert out[..|out|] == out;
  }

  lemma {:induction false} TrailGrows(
      g: map<ServiceId, set<ServiceId>>, start: ServiceId, current: ServiceId, trail: seq<ServiceId>,
      target: ServiceId)
    requires IsTrail(g, start, trail) && ([start] + trail)[|trail|] == current
    requires target in g && target in g[current]
    ensures IsTrail(g, start, trail + [target])
    ensures ([start] + (trail + [target]))[|trail + [target]|] == target
  {
    var walk := [start] + (trail + [target]);
    assert walk == ([start] + trail) + [target];
    forall i | 0 <= i < |walk| - 1 ensures walk[i + 1] in g[walk[i]] {
      if i < |trail| { assert walk[i] == ([start] + trail)[i] && walk[i + 1] == ([start] + trail)[i + 1]; }
    }
  }

  /** A set closed under edges, none of them leading to `start`, is not on a way back. */
  lemma {:induction false} NoWayBack(g: map<ServiceId, set<ServiceId>>, start: ServiceId, marked: set<ServiceId>)
    requires start in g
    requires forall v :: v in marked + {start} && v in g ==> g[v] <= marked && start !in g[v]
    ensures !Reaches(g, start, start)
  {
    forall walk | IsWalk(g, walk) && |walk| >= 2 && walk[0] == start ensures walk[|walk| - 1] != start {
      var before := walk[..|walk| - 1];
      assert IsWalk(g, before);
      ClosedSetKeepsWalk(g, marked + {start}, before);
      assert walk[|walk| - 1] in g[before[|before| - 1]];
    }
  }

  ghost predicate IsCycle(g: map<ServiceId, set<ServiceId>>, start: ServiceId, trail: seq<ServiceId>) {
    IsTrail(g, start, trail) && trail != [] && trail[|trail| - 1] == start
  }

  method SearchFrom(edges: Edges, start: ServiceId, ghost g: map<ServiceId, set<ServiceId>>)
    returns (cycle: Option<seq<ServiceId>>)
    requires EdgesOf(edges, g) && Closed(g) && start in g
    ensures cycle.Some? <==> Reaches(g, start, start)
    ensures cycle.Some? ==> IsCycle(g, start, cycle.value)
  {
    var marked;
    cycle, marked := Visit(edges, start, start, [], {}, g);
    if cycle.Some? {
      ClosedTrail(g, start, cycle.value);
    } else {
      NoWayBack(g, start, marked);
    }
  }

  /** The first start, in id order, with a way back to itself. */
  method ProveServiceCycles(edges: Edges, ghost g: map<ServiceId, set<ServiceId>>)
    returns (r: Result<(), PlanError>)
    requires EdgesOf(edges, g) && Closed(g)
    ensures r.Ok? <==> Acyclic(g)
    ensures r.Err? ==>
      && r.error.ServiceCycle? && r.error.start in g && IsCycle(g, r.error.start, r.error.trail)
      && forall v :: v in g && Less(v, r.error.start) ==> !Reaches(g, v, v)
  {
    var starts := SortIds(edges.Keys);
    for i := 0 to |starts|
      invariant forall v <- starts[..i] :: !Reaches(g, v, v)
    {
      var start := starts[i];
      assert start in Elements(starts);
      var cycle := SearchFrom(edges, start, g);
      if cycle.Some? {
        forall v | v in g && Less(v, start) ensures !Reaches(g, v, v) { EarlierId(starts, i, v); }
        return Err(ServiceCycle(start, cycle.value));
      }
      assert starts[..i + 1] == starts[..i] + [start];
    }
    assert starts[..|starts|] == starts;
    forall v | v in g ensures !Reaches(g, v, v) { assert v in Elements(starts); }
    return Ok(());
  }

  lemma {:induction false} EarlierId(ids: seq<string>, i: nat, v: string)
    requires Ascending(ids) && i < |ids| && v in Elements(ids) && Less(v, ids[i])
    ensures v in ids[..i]
  {
    LessIrreflexive(v);
    var j :| 0 <= j < |ids| && ids[j] == v;
    if i < j { LessTransitive(v, ids[i], v); }
    assert j < i && ids[..i][j] == v;
  }

  lemma {:induction false} ClosedTrail(g: map<ServiceId, set<ServiceId>>, start: ServiceId, trail: seq<ServiceId>)
    requires IsCycle(g, start, trail)
    ensures Reaches(g, start, start)
  {
    var walk := [start] + trail;
    assert walk[|walk| - 1] == start;
  }
}
