/** Waiting for one root task (control/observation.rs): the registry is read,
    the processes are sampled, and the registry is read again; what both reads
    agree on held at every instant between them. */
module Observation {
  import opened Wrappers
  import opened Ids
  import opened Graphs

  // ---- Recorded facts ----

  datatype Status = Running | Ready | Stopped | Succeeded | Failed | Canceled | Escaped | Stale
  datatype Ended = EndedWell | EndedBadly
  datatype Ownership = Settled | Unresolved
  datatype Capture = Pending | Finished(complete: bool)
  datatype Progress = Executing | Finalizing | Finalized

  datatype ProcessFacts = ProcessFacts(
    key: string, pid: nat, pgid: int, start: string, stdout: string, stderr: string,
    status: Status, ownership: Ownership, capture: Capture, outcome: Option<Ended>, exit: Option<int>)

  datatype Coordinate = Coordinate(endpoint: string, host: string, port: nat)
  datatype ServiceFacts = ServiceFacts(process: ProcessFacts, endpoints: seq<Coordinate>)
  datatype Provenance = Provenance(
    manifestPath: string, hash: string, request: string, ownerPid: nat, ownerStart: string)

  datatype Candidate = Candidate(
    run: Provenance, progress: Progress, successor: bool,
    roots: map<string, ProcessFacts>, services: map<string, ServiceFacts>)

  /** The selected plan: success codes of the root leaves, endpoints of the services. */
  datatype Plan = Plan(leaves: map<string, set<int>>, services: map<string, seq<Coordinate>>)

  // ---- Processes ----

  datatype Present = Present(start: string, pgid: int, zombie: bool)
  datatype Leader = Absent | IdentityMismatch | Live

  function Sample(processes: map<nat, Present>, pid: nat, start: string, group: Option<int>): Leader {
    if pid !in processes || processes[pid].zombie then Absent
    else if processes[pid].start != start || (group.Some? && group.value != processes[pid].pgid) then IdentityMismatch
    else Live
  }

  function SampleService(processes: map<nat, Present>, p: ProcessFacts): Leader {
    Sample(processes, p.pid, p.start, Some(p.pgid))
  }

  function SampleOwner(processes: map<nat, Present>, run: Provenance): Leader {
    Sample(processes, run.ownerPid, run.ownerStart, None)
  }

  /** No process of this id is running. */
  predicate Gone(processes: map<nat, Present>, pid: nat) {
    pid in processes ==> processes[pid].zombie
  }

  /** A process of this id is running, but it is another one. */
  predicate Replaced(processes: map<nat, Present>, pid: nat, start: string, group: Option<int>) {
    && pid in processes && !processes[pid].zombie
    && (processes[pid].start != start || (group.Some? && processes[pid].pgid != group.value))
  }

  lemma {:induction false} SampleMeans(processes: map<nat, Present>, pid: nat, start: string, group: Option<int>)
    ensures var leader := Sample(processes, pid, start, group);
      && (leader == Absent <==> Gone(processes, pid))
      && (leader == IdentityMismatch <==> Replaced(processes, pid, start, group))
      && (leader == Live <==> !Gone(processes, pid) && !Replaced(processes, pid, start, group))
  {
  }

  /** One instant of the world, at which one read or one sample happens. */
  datatype Instant = Instant(candidate: Candidate, processes: map<nat, Present>, busy: bool, expired: bool)

  // ---- Registry facts only move forward ----

  function Rank(s: Status): nat {
    match s case Running => 0 case Ready => 1 case _ => 2
  }

  ghost predicate FactsAdvance(a: ProcessFacts, b: ProcessFacts) {
    && a.key == b.key && a.pid == b.pid && a.pgid == b.pgid && a.start == b.start
    && a.stdout == b.stdout && a.stderr == b.stderr
    && (a.status == b.status || Rank(a.status) < Rank(b.status))
    && (a.ownership.Settled? ==> b.ownership.Settled?)
    && (a.capture.Finished? ==> b.capture == a.capture)
    && (a.outcome.Some? ==> b.outcome == a.outcome)
    && (a.exit.Some? ==> b.exit == a.exit)
  }

  ghost predicate ServiceAdvances(a: ServiceFacts, b: ServiceFacts) {
    a.endpoints == b.endpoints && FactsAdvance(a.process, b.process)
  }

  ghost predicate CandidateAdvances(a: Candidate, b: Candidate) {
    && a.run == b.run
    && (b.progress == Executing ==> a.progress == Executing)
    && (a.successor ==> b.successor)
    && (forall step :: step in a.roots ==> step in b.roots && FactsAdvance(a.roots[step], b.roots[step]))
    && (forall id :: id in a.services ==> id in b.services && ServiceAdvances(a.services[id], b.services[id]))
  }

  ghost predicate Forward(h: seq<Instant>) {
    forall i, j :: 0 <= i <= j < |h| ==> CandidateAdvances(h[i].candidate, h[j].candidate)
  }

  // ---- Decisions on one read ----

  predicate SuccessfulTask(t: ProcessFacts) {
    && t.status == Succeeded && t.outcome == Some(EndedWell) && t.exit.Some?
    && t.ownership == Settled && t.capture == Finished(true)
  }

  predicate RootFits(p: ProcessFacts, codes: set<int>) {
    && (p.outcome == Some(EndedWell) ==> p.exit.Some? && p.exit.value in codes)
    && (p.status == Succeeded && p.outcome.Some? ==> p.outcome == Some(EndedWell))
  }

  /** The recorded roots and services belong to the plan. */
  ghost predicate PlanFits(c: Candidate, plan: Plan) {
    && (forall step :: step in c.roots ==> step in plan.leaves && RootFits(c.roots[step], plan.leaves[step]))
    && (forall id :: id in c.services ==> id in plan.services && c.services[id].endpoints == plan.services[id])
    && (c.roots.Keys != {} ==> |c.services| == |plan.services|)
  }

  /** A root that settled well has one of its leaf's success codes, and none is
      recorded as succeeded that did not settle well. */
  lemma {:induction false} FitsMeans(c: Candidate, plan: Plan)
    ensures PlanFits(c, plan) <==>
      && c.roots.Keys <= plan.leaves.Keys && c.services.Keys <= plan.services.Keys
      && (forall step :: step in c.roots && c.roots[step].outcome == Some(EndedWell) ==>
            c.roots[step].exit.Some? && c.roots[step].exit.value in plan.leaves[step])
      && (forall step :: step in c.roots && c.roots[step].status == Succeeded ==>
            c.roots[step].outcome != Some(EndedBadly))
      && (forall id :: id in c.services ==> c.services[id].endpoints == plan.services[id])
      && (c.roots.Keys != {} ==> |c.services| == |plan.services|)
  {
    if c.roots.Keys <= plan.leaves.Keys {
      forall step | step in c.roots
        ensures RootFits(c.roots[step], plan.leaves[step]) <==>
          && (c.roots[step].outcome == Some(EndedWell) ==>
                c.roots[step].exit.Some? && c.roots[step].exit.value in plan.leaves[step])
          && (c.roots[step].status == Succeeded ==> c.roots[step].outcome != Some(EndedBadly))
      {
        match c.roots[step].outcome
        case None =>
        case Some(EndedWell) =>
        case Some(EndedBadly) =>
      }
    }
  }

  method ValidatePlan(c: Candidate, plan: Plan) returns (fits: bool)
    ensures fits <==> PlanFits(c, plan)
  {
    var steps := SortIds(c.roots.Keys);
    for i := 0 to |steps|
      invariant forall j :: 0 <= j < i ==> steps[j] in plan.leaves && RootFits(c.roots[steps[j]], plan.leaves[steps[j]])
    {
      assert steps[i] in Elements(steps);
      if steps[i] !in plan.leaves || !RootFits(c.roots[steps[i]], plan.leaves[steps[i]]) { return false; }
    }
    var ids := SortIds(c.services.Keys);
    for i := 0 to |ids|
      invariant forall j :: 0 <= j < i ==>
        ids[j] in plan.services && c.services[ids[j]].endpoints == plan.services[ids[j]]
    {
      assert ids[i] in Elements(ids);
      if ids[i] !in plan.services || c.services[ids[i]].endpoints != plan.services[ids[i]] { return false; }
    }
    forall step | step in c.roots ensures step in plan.leaves && RootFits(c.roots[step], plan.leaves[step]) {
      assert step in Elements(steps);
    }
    forall id | id in c.services ensures id in plan.services && c.services[id].endpoints == plan.services[id] {
      assert id in Elements(ids);
    }
    return c.roots.Keys == {} || |c.services| == |plan.services|;
  }

  datatype Reason =
    | OwnerReplaced | OwnerGone | ExecutionSettled | TaskFailed | EvidenceIncomplete
    | ServiceSettled | ServiceGone | ServiceIdentityMismatch

  predicate TaskLost(t: ProcessFacts) {
    t.outcome == Some(EndedBadly) || !(t.status == Running || t.status == Succeeded)
  }

  predicate EvidenceLost(t: ProcessFacts) {
    || t.capture == Finished(false)
    || (t.ownership == Unresolved && t.capture.Finished?)
    || (t.status == Succeeded && !SuccessfulTask(t))
  }

  predicate ServiceOver(s: ServiceFacts) {
    || s.process.ownership == Settled || s.process.outcome.Some?
    || !(s.process.status == Running || s.process.status == Ready)
  }

  /** Why the session cannot be used, judged in the program's order. */
  function Unavailable(
      c: Candidate, owner: Leader, leaders: map<string, Leader>, task: Option<ProcessFacts>): Option<Reason> {
    if c.successor || owner == IdentityMismatch then Some(OwnerReplaced)
    else if owner == Absent then Some(OwnerGone)
    else if c.progress != Executing then Some(ExecutionSettled)
    else if task.Some? && TaskLost(task.value) then Some(TaskFailed)
    else if task.Some? && EvidenceLost(task.value) then Some(EvidenceIncomplete)
    else if exists id :: id in c.services && ServiceOver(c.services[id]) then Some(ServiceSettled)
    else if exists id :: id in leaders && leaders[id] == Absent then Some(ServiceGone)
    else if exists id :: id in leaders && leaders[id] == IdentityMismatch then Some(ServiceIdentityMismatch)
    else None
  }

  function TaskAt(c: Candidate, step: string): Option<ProcessFacts> {
    if step in c.roots then Some(c.roots[step]) else None
  }

  predicate AllReady(c: Candidate) {
    forall id :: id in c.services ==> c.services[id].process.status == Ready
  }

  predicate SameIdentity(a: ServiceFacts, b: ServiceFacts) {
    && a.endpoints == b.endpoints && a.process.key == b.process.key && a.process.pid == b.process.pid
    && a.process.pgid == b.process.pgid && a.process.start == b.process.start
  }

  predicate IdentitiesUnchanged(a: map<string, ServiceFacts>, b: map<string, ServiceFacts>) {
    a.Keys == b.Keys && forall id :: id in a ==> SameIdentity(a[id], b[id])
  }

  // ---- What a successful observation stands for ----

  /** Everything the observer needs of the registry at one instant. */
  ghost predicate Usable(c: Candidate, plan: Plan, step: string) {
    && c.progress == Executing && !c.successor
    && step in c.roots && step in plan.leaves && SuccessfulTask(c.roots[step])
    && c.roots[step].exit.value in plan.leaves[step]
    && c.services.Keys == plan.services.Keys && AllReady(c)
    && forall id :: id in c.services ==> c.services[id].endpoints == plan.services[id]
  }

  lemma {:induction false} SubsetOfSameSize<T>(a: set<T>, b: set<T>)
    requires a <= b && |a| == |b|
    ensures a == b
    decreases |b|
  {
    if x :| x in b && x !in a {
      assert a <= b - {x} && |b - {x}| == |b| - 1;
      SubsetNotLarger(a, b - {x});
    }
  }

  lemma {:induction false} SubsetNotLarger<T>(a: set<T>, b: set<T>)
    requires a <= b
    ensures |a| <= |b|
    decreases |a|
  {
    if x :| x in a {
      assert a - {x} <= b - {x};
      SubsetNotLarger(a - {x}, b - {x});
    }
  }

  lemma {:induction false} ReadyIsUsable(c: Candidate, plan: Plan, step: string)
    requires PlanFits(c, plan) && c.progress == Executing && !c.successor && AllReady(c)
    requires step in c.roots && SuccessfulTask(c.roots[step])
    ensures Usable(c, plan, step)
  {
    assert c.services.Keys <= plan.services.Keys;
    assert |c.services.Keys| == |c.services| && |plan.services.Keys| == |plan.services|;
    SubsetOfSameSize(c.services.Keys, plan.services.Keys);
  }

  /** Facts that agree at two instants agree at every instant between. */
  lemma {:induction false} FactsBetween(a: ProcessFacts, b: ProcessFacts, c: ProcessFacts)
    requires FactsAdvance(a, b) && FactsAdvance(b, c) && a == c
    ensures b == a
  {
  }

  /** Usable before and after, with the same task, means usable throughout. */
  lemma {:induction false} UsableBetween(a: Candidate, b: Candidate, c: Candidate, plan: Plan, step: string)
    requires CandidateAdvances(a, b) && CandidateAdvances(b, c)
    requires Usable(a, plan, step) && Usable(c, plan, step) && a.roots[step] == c.roots[step]
    ensures Usable(b, plan, step) && b.run == a.run && b.roots[step] == a.roots[step]
    ensures forall id :: id in a.services ==> id in b.services && SameIdentity(a.services[id], b.services[id])
  {
    FactsBetween(a.roots[step], b.roots[step], c.roots[step]);
    forall id | id in b.services ensures id in a.services && b.services[id].process.status == Ready {
      assert id in c.services && c.services[id].process.status == Ready;
      assert id in a.services && a.services[id].process.status == Ready;
      assert ServiceAdvances(a.services[id], b.services[id]) && ServiceAdvances(b.services[id], c.services[id]);
    }
    assert b.services.Keys == plan.services.Keys;
  }
}
