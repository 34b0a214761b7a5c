/** The observing loop (control/observation.rs, `await_root_with_poll`) and what
    its success proves about the instants it did not look at. */
module AwaitRoot {
  import opened Wrappers
  import opened Graphs
  import opened Ids
  import opened Observation

  datatype Stop = Expired | RequestMismatch | UnknownStep | Corrupt | Lost(reason: Reason) | Exhausted

  /** The evidence handed to the caller. */
  datatype Evidence = Evidence(run: Provenance, task: ProcessFacts, services: map<string, ServiceFacts>)

  /** At which instants the two reads and the samples of a success happened. */
  datatype Times = Times(read: nat, owner: nat, services: map<string, nat>, reread: nat, ownerAgain: nat)

  method ReadCandidate(h: seq<Instant>, from: nat) returns (r: Result<Candidate, Stop>, at: nat)
    ensures r.Ok? ==> from <= at < |h| && r.value == h[at].candidate && !h[at].busy
    ensures from < |h| && !h[from].busy && !h[from].expired ==> r.Ok? && at == from
    ensures r.Err? ==> r.error == Expired || r.error == Exhausted
    ensures from <= at && forall i :: from <= i < at && i < |h| ==> h[i].busy
    ensures r == Err(Expired) ==> at < |h| && h[at].expired
    ensures r == Err(Exhausted) ==> at >= |h|
  {
    at := from;
    while at < |h|
      invariant from <= at && forall i :: from <= i < at && i < |h| ==> h[i].busy
    {
      if h[at].expired { return Err(Expired), at; }
      if !h[at].busy { return Ok(h[at].candidate), at; }
      at := at + 1;
    }
    return Err(Exhausted), at;
  }

  datatype Session = Session(owner: Leader, leaders: map<string, Leader>)

  ghost predicate SampledBy(c: Candidate, h: seq<Instant>, ids: set<string>, from: nat, until: nat,
    leaders: map<string, Leader>, at: map<string, nat>)
  {
    && leaders.Keys == at.Keys == ids <= c.services.Keys
    && forall id :: id in ids ==>
         && from <= at[id] < until <= |h|
         && leaders[id] == SampleService(h[at[id]].processes, c.services[id].process)
  }

  lemma {:induction false} SampledOneMore(
      c: Candidate, h: seq<Instant>, ids: set<string>, from: nat, clock: nat,
      leaders: map<string, Leader>, at: map<string, nat>, id: string)
    requires SampledBy(c, h, ids, from, clock, leaders, at) && from <= clock < |h| && id in c.services && id !in ids
    ensures SampledBy(c, h, ids + {id}, from, clock + 1,
      leaders[id := SampleService(h[clock].processes, c.services[id].process)], at[id := clock])
  {
  }

  /** Each service in id order, at its own instant. */
  method SampleServices(c: Candidate, h: seq<Instant>, ids: seq<string>, from: nat)
    returns (r: Result<map<string, Leader>, Stop>, clock: nat, ghost at: map<string, nat>)
    requires Ascending(ids) && from <= |h| && forall id <- ids :: id in c.services
    ensures r.Ok? ==> clock == from + |ids| <= |h| && SampledBy(c, h, Elements(ids), from, clock, r.value, at)
    ensures r.Err? ==> r.error == Exhausted && |h| < from + |ids|
    ensures from <= clock
  {
    at, clock := map[], from;
    var leaders: map<string, Leader> := map[];
    assert Elements(ids[..0]) == {} && SampledBy(c, h, {}, from, clock, leaders, at);
    hide SampledBy, SampleService, Elements, Ascending;
    for i := 0 to |ids|
      invariant clock == from + i <= |h| && SampledBy(c, h, Elements(ids[..i]), from, clock, leaders, at)
    {
      if clock >= |h| { return Err(Exhausted), clock, at; }
      NotYetListed(ids, i);
      SampledOneMore(c, h, Elements(ids[..i]), from, clock, leaders, at, ids[i]);
      assert ids[..i + 1] == ids[..i] + [ids[i]];
      leaders := leaders[ids[i] := SampleService(h[clock].processes, c.services[ids[i]].process)];
      at := at[ids[i] := clock];
      clock := clock + 1;
    }
    assert ids[..|ids|] == ids;
    return Ok(leaders), clock, at;
  }

  /** The owner first, then the services. */
  method SampleSession(c: Candidate, h: seq<Instant>, from: nat)
    returns (r: Result<Session, Stop>, clock: nat, ghost at: map<string, nat>)
    ensures from <= clock
    ensures r.Ok? ==> clock == from + 1 + |c.services.Keys| <= |h|
    ensures r.Ok? ==> r.value.owner == SampleOwner(h[from].processes, c.run)
    ensures r.Ok? ==> SampledBy(c, h, c.services.Keys, from + 1, clock, r.value.leaders, at)
    ensures r.Err? ==> r.error == Exhausted && |h| <= from + |c.services.Keys|
  {
    at, clock := map[], from;
    if from >= |h| { return Err(Exhausted), clock, at; }
    var owner := SampleOwner(h[from].processes, c.run);
    var ids := SortIds(c.services.Keys);
    AscendingSize(ids);
    forall id <- ids ensures id in c.services { assert id in Elements(ids); }
    hide SampledBy, SampleService, SampleOwner, Elements, Ascending;
    var sampled;
    sampled, clock, at := SampleServices(c, h, ids, from + 1);
    if sampled.Err? { return Err(sampled.error), clock, at; }
    return Ok(Session(owner, sampled.value)), clock, at;
  }

  /** The session was sampled after the read at `at`: the owner, then each service. */
  ghost predicate SampledAfter(
    h: seq<Instant>, at: nat, session: Session, clock: nat, sampledAt: map<string, nat>)
  {
    && at < |h|
    && var c := h[at].candidate;
    && clock == at + 2 + |c.services.Keys| <= |h|
    && session.owner == SampleOwner(h[at + 1].processes, c.run)
    && SampledBy(c, h, c.services.Keys, at + 2, clock, session.leaders, sampledAt)
  }

  /** What a success rests on: two usable reads that agree, and live samples between them. */
  ghost predicate Rests(h: seq<Instant>, plan: Plan, step: string, times: Times, e: Evidence) {
    && times.read < times.owner < times.reread < times.ownerAgain < |h|
    && var before, after := h[times.read].candidate, h[times.reread].candidate;
    && Usable(before, plan, step) && Usable(after, plan, step)
    && before.roots[step] == after.roots[step] && before.run == after.run
    && IdentitiesUnchanged(before.services, after.services)
    && SampleOwner(h[times.owner].processes, before.run) == Live
    && SampleOwner(h[times.ownerAgain].processes, after.run) == Live
    && times.services.Keys == plan.services.Keys
    && (forall id :: id in plan.services ==>
          && times.read < times.services[id] < times.reread
          && SampleService(h[times.services[id]].processes, before.services[id].process) == Live)
    && e == Evidence(after.run, after.roots[step], after.services)
  }

  /** Nothing moves, everything is usable, live and alone, and there is time. */
  ghost predicate Steady(h: seq<Instant>, plan: Plan, step: string) {
    && h != []
    && var c := h[0].candidate;
    && |c.services.Keys| + 3 < |h| && PlanFits(c, plan) && Usable(c, plan, step)
    && (forall id :: id in c.services ==> !ServiceOver(c.services[id]))
    && forall i :: 0 <= i < |h| ==>
         && h[i].candidate == c && !h[i].busy && !h[i].expired
         && SampleOwner(h[i].processes, c.run) == Live
         && forall id :: id in c.services ==> SampleService(h[i].processes, c.services[id].process) == Live
  }

  // ---- A session that comes up ----

  /** The task runs, or has settled well. */
  predicate Underway(t: ProcessFacts) {
    || (t.status == Running && t.outcome != Some(EndedBadly)
        && (t.capture == Pending || (t.capture == Finished(true) && t.ownership == Settled)))
    || (t.status == Succeeded && t.outcome == Some(EndedWell) && t.exit.Some? && t.ownership == Settled
        && t.capture == Finished(true))
  }

  /** The service is on its way up, or up. */
  predicate Up(s: ServiceFacts) {
    && (s.process.status == Running || s.process.status == Ready)
    && s.process.ownership == Unresolved && s.process.outcome.None?
  }

  /** Nothing has gone wrong at this instant: the owner and every recorded service
      run as recorded, and the task is not lost; nothing need be ready yet. */
  ghost predicate Undisturbed(i: Instant, plan: Plan, step: string) {
    && !i.expired && PlanFits(i.candidate, plan)
    && i.candidate.progress == Executing && !i.candidate.successor
    && SampleOwner(i.processes, i.candidate.run) == Live
    && (step in i.candidate.roots ==> Underway(i.candidate.roots[step]))
    && forall id :: id in i.candidate.services ==>
         && Up(i.candidate.services[id])
         && SampleService(i.processes, i.candidate.services[id].process) == Live
  }

  /** The session is undisturbed and at instant `s` usable, with the time to see
      so twice; reads may meet a busy registry until then. */
  ghost predicate Comes(h: seq<Instant>, plan: Plan, step: string, s: nat) {
    && s < |h| && Forward(h) && Usable(h[s].candidate, plan, step)
    && (forall i :: 0 <= i < |h| ==> Undisturbed(h[i], plan, step))
    && (forall i :: s <= i < |h| ==> !h[i].busy)
    && InTime(0, s, |plan.services|, |h|)
  }

  /** A read at `at` leaves the time for two reads after `s`, with all samples. */
  predicate InTime(at: nat, s: nat, services: nat, end: nat) {
    (if at >= s then at + services + 3 else s + 2 * services + 4) < end
  }

  lemma {:induction false} SteadyComes(h: seq<Instant>, plan: Plan, step: string)
    requires Steady(h, plan, step)
    ensures Comes(h, plan, step, 0)
  {
    var c := h[0].candidate;
    assert |c.services.Keys| == |plan.services.Keys| == |plan.services|;
    hide SampleOwner, SampleService, PlanFits;
    forall i | 0 <= i < |h| ensures Undisturbed(h[i], plan, step) {
      assert h[i].candidate == c;
      forall id | id in c.services ensures Up(c.services[id]) { assert !ServiceOver(c.services[id]); }
    }
  }

  /** What is usable stays so while nothing goes wrong. */
  lemma {:induction false} ReadyStays(a: Candidate, b: Candidate, plan: Plan, step: string)
    requires CandidateAdvances(a, b) && PlanFits(a, plan) && PlanFits(b, plan) && IsReady(a, plan, TaskAt(a, step))
    ensures b.run == a.run && TaskAt(b, step) == TaskAt(a, step) && IdentitiesUnchanged(a.services, b.services)
    ensures (forall id :: id in b.services ==> !ServiceOver(b.services[id])) ==> AllReady(b)
  {
    assert FactsAdvance(a.roots[step], b.roots[step]);
    assert |a.services.Keys| == |a.services| && |b.services.Keys| == |b.services|;
    SubsetOfSameSize(a.services.Keys, b.services.Keys);
    forall id | id in b.services && !ServiceOver(b.services[id]) ensures b.services[id].process.status == Ready {
      assert ServiceAdvances(a.services[id], b.services[id]);
    }
  }

  predicate IsReady(c: Candidate, plan: Plan, task: Option<ProcessFacts>) {
    task.Some? && SuccessfulTask(task.value) && |c.services| == |plan.services| && AllReady(c)
  }

  /** Sampled after its read, an undisturbed session is available, then and at
      every later read. */
  lemma {:induction false} UndisturbedIsAvailable(
    h: seq<Instant>, plan: Plan, step: string, s: nat, at: nat, session: Session, clock: nat,
    sampledAt: map<string, nat>, i: nat)
    requires Comes(h, plan, step, s) && at <= i < |h| && SampledAfter(h, at, session, clock, sampledAt)
    ensures Unavailable(h[i].candidate, session.owner, session.leaders, TaskAt(h[i].candidate, step)) == None
  {
    var c := h[at].candidate;
    assert CandidateAdvances(c, h[at + 1].candidate) && Undisturbed(h[at + 1], plan, step);
    forall id | id in session.leaders ensures session.leaders[id] == Live {
      SampledLive(h, plan, step, at, sampledAt[id], id);
    }
    assert Undisturbed(h[i], plan, step);
    UndisturbedMeans(h[i], plan, step, session.owner, session.leaders);
  }

  lemma {:induction false} SampledLive(h: seq<Instant>, plan: Plan, step: string, at: nat, t: nat, id: string)
    requires Forward(h) && at <= t < |h| && id in h[at].candidate.services && Undisturbed(h[t], plan, step)
    ensures SampleService(h[t].processes, h[at].candidate.services[id].process) == Live
  {
    assert CandidateAdvances(h[at].candidate, h[t].candidate);
    assert ServiceAdvances(h[at].candidate.services[id], h[t].candidate.services[id]);
  }

  lemma {:induction false} UndisturbedMeans(
    i: Instant, plan: Plan, step: string, owner: Leader, leaders: map<string, Leader>)
    requires Undisturbed(i, plan, step) && owner == Live && forall id :: id in leaders ==> leaders[id] == Live
    ensures Unavailable(i.candidate, owner, leaders, TaskAt(i.candidate, step)) == None
    ensures forall id :: id in i.candidate.services ==> !ServiceOver(i.candidate.services[id])
  {
    forall id | id in i.candidate.services ensures !ServiceOver(i.candidate.services[id]) {
      assert Up(i.candidate.services[id]);
    }
  }

  // ---- What a loss rests on ----

  /** The facts of one read, or what was sampled since, show this loss. */
  ghost predicate ShowsLoss(reason: Reason, c: Candidate, step: string, owner: Leader, leaders: map<string, Leader>) {
    match reason
    case OwnerReplaced => c.successor || owner == IdentityMismatch
    case OwnerGone => owner == Absent
    case ExecutionSettled => c.progress != Executing
    case TaskFailed =>
      && step in c.roots
      && (c.roots[step].outcome == Some(EndedBadly) || c.roots[step].status !in {Running, Succeeded})
    case EvidenceIncomplete =>
      && step in c.roots
      && (c.roots[step].capture == Finished(false)
          || (c.roots[step].ownership == Unresolved && c.roots[step].capture.Finished?)
          || (c.roots[step].status == Succeeded
              && (c.roots[step].outcome != Some(EndedWell) || c.roots[step].exit.None?
                  || c.roots[step].ownership != Settled || c.roots[step].capture != Finished(true))))
    case ServiceSettled => exists id :: id in c.services && SettledDown(c.services[id].process)
    case ServiceGone => exists id :: id in leaders && leaders[id] == Absent
    case ServiceIdentityMismatch => exists id :: id in leaders && leaders[id] == IdentityMismatch
  }

  predicate SettledDown(p: ProcessFacts) {
    p.ownership == Settled || p.outcome.Some? || p.status !in {Running, Ready}
  }

  lemma {:induction false} UnavailableMeans(c: Candidate, step: string, owner: Leader, leaders: map<string, Leader>)
    ensures var reason := Unavailable(c, owner, leaders, TaskAt(c, step));
      reason.Some? ==> ShowsLoss(reason.value, c, step, owner, leaders)
  {
    if id :| id in c.services && ServiceOver(c.services[id]) { assert SettledDown(c.services[id].process); }
  }

  /** A loss as it was found: what the read at `reread` recorded, or what the owner
      or a service recorded by the read at `read` turned out to be when sampled. */
  ghost predicate LossFound(h: seq<Instant>, step: string, times: Times, reason: Reason) {
    && times.read < times.owner < |h| && times.read <= times.reread < |h|
    && var recorded, c := h[times.read].candidate, h[times.reread].candidate;
    match reason
    case OwnerReplaced =>
      || c.successor
      || Replaced(h[times.owner].processes, recorded.run.ownerPid, recorded.run.ownerStart, None)
      || (times.reread < times.ownerAgain < |h|
          && Replaced(h[times.ownerAgain].processes, c.run.ownerPid, c.run.ownerStart, None))
    case OwnerGone =>
      || Gone(h[times.owner].processes, recorded.run.ownerPid)
      || (times.reread < times.ownerAgain < |h| && Gone(h[times.ownerAgain].processes, c.run.ownerPid))
    case ServiceGone =>
      exists id :: ServiceSampled(h, times, id) &&
        Gone(h[times.services[id]].processes, recorded.services[id].process.pid)
    case ServiceIdentityMismatch =>
      exists id :: ServiceSampled(h, times, id) &&
        var p := recorded.services[id].process;
        Replaced(h[times.services[id]].processes, p.pid, p.start, Some(p.pgid))
    case _ => ShowsLoss(reason, c, step, Live, map[])
  }

  ghost predicate ServiceSampled(h: seq<Instant>, times: Times, id: string)
    requires times.read < |h|
  {
    id in times.services && id in h[times.read].candidate.services && times.read < times.services[id] < |h|
  }

  lemma {:induction false} LossIsFound(
    h: seq<Instant>, step: string, times: Times, session: Session, clock: nat, reason: Reason)
    requires SampledAfter(h, times.read, session, clock, times.services)
    requires times.owner == times.read + 1 && times.read <= times.reread < |h|
    requires ShowsLoss(reason, h[times.reread].candidate, step, session.owner, session.leaders)
    ensures LossFound(h, step, times, reason)
  {
    var c := h[times.read].candidate;
    SampleMeans(h[times.owner].processes, c.run.ownerPid, c.run.ownerStart, None);
    if reason.ServiceGone? || reason.ServiceIdentityMismatch? {
      var id :| id in session.leaders
        && session.leaders[id] == if reason.ServiceGone? then Absent else IdentityMismatch;
      var p := c.services[id].process;
      SampleMeans(h[times.services[id]].processes, p.pid, p.start, Some(p.pgid));
      assert ServiceSampled(h, times, id);
    }
  }

  /** Why a second read does not confirm the first. */
  ghost predicate Unconfirmed(
    h: seq<Instant>, plan: Plan, step: string, c: Candidate, session: Session, task: ProcessFacts, clock: nat,
    at: nat, stop: Stop)
  {
    match stop
    case Expired => exists i :: 0 <= i < |h| && h[i].expired
    case Exhausted => at + 1 >= |h|
    case Corrupt =>
      && at < |h|
      && var later := h[at].candidate;
      && clock <= at
      && (!PlanFits(later, plan) || later.run != c.run || !IdentitiesUnchanged(c.services, later.services)
          || TaskAt(later, step) != Some(task)
          || (!AllReady(later) && Unavailable(later, session.owner, session.leaders, TaskAt(later, step)) == None))
    case Lost(reason) =>
      && clock <= at < |h|
      && (Unavailable(h[at].candidate, session.owner, session.leaders, TaskAt(h[at].candidate, step)) == Some(reason)
          || (at + 1 < |h| && OwnerLost(h[at + 1].processes, h[at].candidate.run, reason)))
    case _ => false
  }

  ghost predicate OwnerLost(processes: map<nat, Present>, run: Provenance, reason: Reason) {
    || (reason == OwnerReplaced && SampleOwner(processes, run) == IdentityMismatch)
    || (reason == OwnerGone && SampleOwner(processes, run) == Absent)
  }

  /** The second read, and the owner once more. */
  method Reread(
      h: seq<Instant>, plan: Plan, step: string, c: Candidate, session: Session, task: ProcessFacts, clock: nat)
    returns (r: Result<Candidate, Stop>, at: nat)
    ensures r.Ok? ==> clock <= at && at + 1 < |h| && r.value == h[at].candidate
    ensures r.Ok? ==> PlanFits(r.value, plan) && r.value.run == c.run && AllReady(r.value)
    ensures r.Ok? ==> IdentitiesUnchanged(c.services, r.value.services) && TaskAt(r.value, step) == Some(task)
    ensures r.Ok? ==> Unavailable(r.value, session.owner, session.leaders, Some(task)) == None
    ensures r.Ok? ==> SampleOwner(h[at + 1].processes, r.value.run) == Live
    ensures clock <= at && forall i :: clock <= i < at && i < |h| ==> h[i].busy
    ensures r.Err? ==> Unconfirmed(h, plan, step, c, session, task, clock, at, r.error)
  {
    hide PlanFits, Unavailable, IdentitiesUnchanged, AllReady, TaskAt, SampleOwner;
    r, at := ReadCandidate(h, clock);
    if r.Err? { return; }
    var later := r.value;
    var fits := ValidatePlan(later, plan);
    if !fits || later.run != c.run || !IdentitiesUnchanged(c.services, later.services)
      || TaskAt(later, step) != Some(task)
    {
      return Err(Corrupt), at;
    }
    var reason := Unavailable(later, session.owner, session.leaders, TaskAt(later, step));
    if reason.Some? { return Err(Lost(reason.value)), at; }
    if !AllReady(later) { return Err(Corrupt), at; }
    if at + 1 >= |h| { return Err(Exhausted), at; }
    match SampleOwner(h[at + 1].processes, later.run)
    case IdentityMismatch => return Err(Lost(OwnerReplaced)), at;
    case Absent => return Err(Lost(OwnerGone)), at;
    case Live =>
      if h[at + 1].expired { return Err(Expired), at; }
      return Ok(later), at;
  }

  lemma {:induction false} NoReasonMeansLive(
      c: Candidate, owner: Leader, leaders: map<string, Leader>, task: Option<ProcessFacts>)
    requires Unavailable(c, owner, leaders, task) == None
    ensures owner == Live && c.progress == Executing && !c.successor
    ensures forall id :: id in leaders ==> leaders[id] == Live
  {
  }

  lemma {:induction false} RereadRests(
      h: seq<Instant>, plan: Plan, step: string, c: Candidate, at: nat, session: Session,
      clock: nat, sampledAt: map<string, nat>, later: Candidate, laterAt: nat, task: ProcessFacts)
    requires at < |h| && c == h[at].candidate && PlanFits(c, plan) && TaskAt(c, step) == Some(task)
    requires SampledAfter(h, at, session, clock, sampledAt)
    requires IsReady(c, plan, Some(task)) && Unavailable(c, session.owner, session.leaders, Some(task)) == None
    requires clock <= laterAt && laterAt + 1 < |h| && later == h[laterAt].candidate
    requires PlanFits(later, plan) && later.run == c.run && AllReady(later)
    requires IdentitiesUnchanged(c.services, later.services) && TaskAt(later, step) == Some(task)
    requires Unavailable(later, session.owner, session.leaders, Some(task)) == None
    requires SampleOwner(h[laterAt + 1].processes, later.run) == Live
    ensures Rests(h, plan, step,
      Times(at, at + 1, sampledAt, laterAt, laterAt + 1), Evidence(later.run, task, later.services))
  {
    hide Unavailable, PlanFits, SampleOwner, SampleService, IdentitiesUnchanged, SuccessfulTask, AllReady;
    NoReasonMeansLive(c, session.owner, session.leaders, Some(task));
    NoReasonMeansLive(later, session.owner, session.leaders, Some(task));
    ReadyIsUsable(c, plan, step);
    ReadyIsUsable(later, plan, step);
  }

  // ---- Waiting ----

  /** Why waiting ends without evidence; running out of instants is not an excuse
      when the session comes up (`Comes`). */
  ghost predicate Excuses(h: seq<Instant>, plan: Plan, hash: string, step: string, times: Times, stop: Stop) {
    match stop
    case Expired => exists i :: 0 <= i < |h| && h[i].expired
    case RequestMismatch => times.read < |h| && h[times.read].candidate.run.hash != hash
    case UnknownStep => step !in plan.leaves
    case Corrupt => !Forward(h) || exists i :: 0 <= i < |h| && !PlanFits(h[i].candidate, plan)
    case Lost(reason) => LossFound(h, step, times, reason)
    case Exhausted => true
  }

  /** When the session comes up, later reads agree with one that was ready. */
  lemma {:induction false} ComesAgrees(h: seq<Instant>, plan: Plan, step: string, s: nat, at: nat, i: nat)
    requires Comes(h, plan, step, s) && at <= i < |h|
    requires IsReady(h[at].candidate, plan, TaskAt(h[at].candidate, step))
    ensures PlanFits(h[i].candidate, plan) && h[i].candidate.run == h[at].candidate.run && AllReady(h[i].candidate)
    ensures IdentitiesUnchanged(h[at].candidate.services, h[i].candidate.services)
    ensures TaskAt(h[i].candidate, step) == TaskAt(h[at].candidate, step)
    ensures SampleOwner(h[i].processes, h[i].candidate.run) == Live && !h[i].expired
  {
    assert Undisturbed(h[at], plan, step) && Undisturbed(h[i], plan, step);
    assert CandidateAdvances(h[at].candidate, h[i].candidate);
    UndisturbedMeans(h[i], plan, step, Live, map[]);
    hide Unavailable, PlanFits, AllReady, IdentitiesUnchanged, TaskAt, IsReady, CandidateAdvances, Up, ServiceOver;
    ReadyStays(h[at].candidate, h[i].candidate, plan, step);
  }

  /** The next read comes in time: at most the instant sampling ends at, or `s`. */
  lemma {:induction false} NextInTime(h: seq<Instant>, s: nat, services: nat, at: nat, clock: nat, later: nat)
    requires s < |h| && forall i :: s <= i < |h| ==> !h[i].busy
    requires InTime(at, s, services, |h|) && at < clock <= at + 2 + services
    requires clock <= later && forall i :: clock <= i < later && i < |h| ==> h[i].busy
    ensures later + 1 < |h| && (at < s ==> InTime(later, s, services, |h|))
  {
    var last := if clock < s then s else clock;
    assert last + 1 < |h| && !h[last].busy;
  }

  /** When the session comes up, its second read confirms the first. */
  lemma {:induction false} ComesConfirms(
    h: seq<Instant>, plan: Plan, step: string, s: nat, at: nat, session: Session, task: ProcessFacts, clock: nat,
    sampledAt: map<string, nat>, later: nat, stop: Stop)
    requires Comes(h, plan, step, s) && at < |h| && InTime(at, s, |plan.services|, |h|)
    requires IsReady(h[at].candidate, plan, Some(task)) && TaskAt(h[at].candidate, step) == Some(task)
    requires SampledAfter(h, at, session, clock, sampledAt) && clock == at + 2 + |plan.services|
    requires clock <= later && forall i :: clock <= i < later && i < |h| ==> h[i].busy
    ensures !Unconfirmed(h, plan, step, h[at].candidate, session, task, clock, later, stop)
  {
    hide Comes, Unavailable, PlanFits, AllReady, IdentitiesUnchanged, TaskAt, IsReady, SampleOwner, SampledBy;
    hide Unconfirmed, Usable, Forward, Undisturbed;
    ComesOnTime(h, plan, step, s, at, clock, later);
    ComesAgrees(h, plan, step, s, at, later);
    ComesAgrees(h, plan, step, s, at, later + 1);
    UndisturbedIsAvailable(h, plan, step, s, at, session, clock, sampledAt, later);
    NothingAmiss(h, plan, step, h[at].candidate, session, task, clock, later, stop);
  }

  lemma {:induction false} ComesOnTime(
    h: seq<Instant>, plan: Plan, step: string, s: nat, at: nat, clock: nat, later: nat)
    requires Comes(h, plan, step, s) && at < |h| && InTime(at, s, |plan.services|, |h|)
    requires at < clock <= at + 2 + |plan.services|
    requires clock <= later && forall i :: clock <= i < later && i < |h| ==> h[i].busy
    ensures later + 1 < |h| && forall i :: 0 <= i < |h| ==> !h[i].expired
    ensures at < s ==> InTime(later, s, |plan.services|, |h|)
  {
    NextInTime(h, s, |plan.services|, at, clock, later);
    assert forall i :: 0 <= i < |h| ==> Undisturbed(h[i], plan, step);
  }

  lemma {:induction false} NothingAmiss(
    h: seq<Instant>, plan: Plan, step: string, c: Candidate, session: Session, task: ProcessFacts, clock: nat,
    at: nat, stop: Stop)
    requires at + 1 < |h| && forall i :: 0 <= i < |h| ==> !h[i].expired
    requires PlanFits(h[at].candidate, plan) && h[at].candidate.run == c.run && AllReady(h[at].candidate)
    requires IdentitiesUnchanged(c.services, h[at].candidate.services) && TaskAt(h[at].candidate, step) == Some(task)
    requires Unavailable(h[at].candidate, session.owner, session.leaders, TaskAt(h[at].candidate, step)) == None
    requires SampleOwner(h[at + 1].processes, c.run) == Live
    ensures !Unconfirmed(h, plan, step, c, session, task, clock, at, stop)
  {
    hide Unavailable, PlanFits, AllReady, IdentitiesUnchanged, TaskAt, SampleOwner;
  }

  /** A registry that fits the plan and only moves forward is never called corrupt. */
  lemma {:induction false} CorruptMeans(
    h: seq<Instant>, plan: Plan, step: string, at: nat, session: Session, task: ProcessFacts, clock: nat, later: nat)
    requires at < clock && at < |h| && PlanFits(h[at].candidate, plan)
    requires IsReady(h[at].candidate, plan, Some(task)) && TaskAt(h[at].candidate, step) == Some(task)
    requires Unconfirmed(h, plan, step, h[at].candidate, session, task, clock, later, Corrupt)
    ensures !Forward(h) || exists i :: 0 <= i < |h| && !PlanFits(h[i].candidate, plan)
  {
    var before, after := h[at].candidate, h[later].candidate;
    hide PlanFits, AllReady, IdentitiesUnchanged, TaskAt, IsReady, Unavailable, CandidateAdvances, ServiceOver;
    if Forward(h) && PlanFits(after, plan) {
      ReadyStays(before, after, plan, step);
      NoReasonMeansUp(after, session.owner, session.leaders, TaskAt(after, step));
    }
  }

  lemma {:induction false} NoReasonMeansUp(
      c: Candidate, owner: Leader, leaders: map<string, Leader>, task: Option<ProcessFacts>)
    requires Unavailable(c, owner, leaders, task) == None
    ensures forall id :: id in c.services ==> !ServiceOver(c.services[id])
  {
  }

  /** A ready session is read again and, if nothing changed, reported. */
  method Confirm(
      h: seq<Instant>, plan: Plan, hash: string, step: string, c: Candidate, session: Session, clock: nat,
      task: ProcessFacts, ghost at: nat, ghost sampledAt: map<string, nat>, ghost s: nat)
    returns (r: Result<Evidence, Stop>, ghost times: Times)
    requires at < |h| && c == h[at].candidate && PlanFits(c, plan) && TaskAt(c, step) == Some(task)
    requires SampledAfter(h, at, session, clock, sampledAt)
    requires IsReady(c, plan, Some(task)) && Unavailable(c, session.owner, session.leaders, Some(task)) == None
    ensures r.Ok? ==> Rests(h, plan, step, times, r.value) && r.value.run == c.run
    ensures r.Err? ==> Excuses(h, plan, hash, step, times, r.error)
    ensures Comes(h, plan, step, s) && InTime(at, s, |plan.services|, |h|) ==> r.Ok?
  {
    assert clock == at + 2 + |plan.services|;
    hide SampledAfter;
    hide Rests, Unavailable, SampledBy, PlanFits, Usable, IsReady, AllReady, IdentitiesUnchanged, Comes, Forward;
    hide SampleOwner, TaskAt;
    var later, laterAt := Reread(h, plan, step, c, session, task, clock);
    times := Times(at, at + 1, sampledAt, laterAt, laterAt + 1);
    if later.Err? {
      if Comes(h, plan, step, s) && InTime(at, s, |plan.services|, |h|) {
        ComesConfirms(h, plan, step, s, at, session, task, clock, sampledAt, laterAt, later.error);
      }
      UnconfirmedExcuses(h, plan, hash, step, session, task, clock, times, later.error);
      return Err(later.error), times;
    }
    RereadRests(h, plan, step, c, at, session, clock, sampledAt, later.value, laterAt, task);
    return Ok(Evidence(later.value.run, task, later.value.services)), times;
  }

  lemma {:induction false} UnconfirmedExcuses(
    h: seq<Instant>, plan: Plan, hash: string, step: string, session: Session, task: ProcessFacts, clock: nat,
    times: Times, stop: Stop)
    requires SampledAfter(h, times.read, session, clock, times.services)
    requires times.owner == times.read + 1 && times.ownerAgain == times.reread + 1
    requires PlanFits(h[times.read].candidate, plan)
    requires IsReady(h[times.read].candidate, plan, Some(task)) && TaskAt(h[times.read].candidate, step) == Some(task)
    requires Unconfirmed(h, plan, step, h[times.read].candidate, session, task, clock, times.reread, stop)
    ensures Excuses(h, plan, hash, step, times, stop)
  {
    match stop
    case Corrupt => CorruptMeans(h, plan, step, times.read, session, task, clock, times.reread);
    case Lost(reason) =>
      var c := h[times.reread].candidate;
      if Unavailable(c, session.owner, session.leaders, TaskAt(c, step)) == Some(reason) {
        UnavailableMeans(c, step, session.owner, session.leaders);
        LossIsFound(h, step, times, session, clock, reason);
      } else {
        SampleMeans(h[times.ownerAgain].processes, c.run.ownerPid, c.run.ownerStart, None);
      }
    case _ =>
  }

  /** What a success hands over, field by field. */
  lemma {:induction false} EvidenceMeans(h: seq<Instant>, plan: Plan, step: string, times: Times, e: Evidence)
    requires Rests(h, plan, step, times, e)
    ensures SettledEvidence(plan, step, e)
    ensures forall id :: id in e.services ==>
      && id in h[times.read].candidate.services
      && SameProcess(h[times.read].candidate.services[id].process, e.services[id].process)
  {
  }

  predicate SameProcess(a: ProcessFacts, b: ProcessFacts) {
    a.key == b.key && a.pid == b.pid && a.pgid == b.pgid && a.start == b.start
  }

  ghost predicate SettledEvidence(plan: Plan, step: string, e: Evidence) {
    && e.task.status == Succeeded && e.task.outcome == Some(EndedWell) && e.task.exit.Some?
    && step in plan.leaves && e.task.exit.value in plan.leaves[step]
    && e.task.ownership == Settled && e.task.capture == Finished(true)
    && e.services.Keys == plan.services.Keys
    && forall id :: id in e.services ==>
         e.services[id].process.status == Ready && e.services[id].endpoints == plan.services[id]
  }

  /** A read of a session that comes up is not excused, and from `s` on it is ready. */
  lemma {:induction false} ComesUp(h: seq<Instant>, plan: Plan, step: string, s: nat, at: nat)
    requires Comes(h, plan, step, s) && at < |h|
    ensures PlanFits(h[at].candidate, plan) && h[at].candidate.run == h[0].candidate.run && step in plan.leaves
    ensures |h[at].candidate.services.Keys| <= |plan.services|
    ensures at >= s ==> IsReady(h[at].candidate, plan, TaskAt(h[at].candidate, step))
  {
    assert Undisturbed(h[at], plan, step) && CandidateAdvances(h[0].candidate, h[at].candidate);
    assert h[at].candidate.services.Keys <= plan.services.Keys && |plan.services.Keys| == |plan.services|;
    SubsetNotLarger(h[at].candidate.services.Keys, plan.services.Keys);
    if at >= s {
      UsableIsReady(h[s].candidate, plan, step);
      assert Undisturbed(h[s], plan, step) && CandidateAdvances(h[s].candidate, h[at].candidate);
      ComesAgrees(h, plan, step, s, s, at);
      SameSize(h[s].candidate.services, h[at].candidate.services);
    }
  }

  lemma {:induction false} UsableIsReady(c: Candidate, plan: Plan, step: string)
    requires Usable(c, plan, step)
    ensures IsReady(c, plan, TaskAt(c, step))
  {
    assert |c.services.Keys| == |c.services| && |plan.services.Keys| == |plan.services|;
  }

  lemma {:induction false} SameSize(a: map<string, ServiceFacts>, b: map<string, ServiceFacts>)
    requires IdentitiesUnchanged(a, b)
    ensures |a| == |b|
  {
    assert |a.Keys| == |a| && |b.Keys| == |b|;
  }

  lemma {:induction false} ComesFirst(h: seq<Instant>, plan: Plan, step: string, s: nat, later: nat)
    requires Comes(h, plan, step, s) && forall i :: 0 <= i < later && i < |h| ==> h[i].busy
    ensures later < |h| && !h[later].expired && OnCourse(h, plan, step, s, later) && step in plan.leaves
    ensures h[later].candidate.run == h[0].candidate.run
  {
    assert later <= s && Undisturbed(h[later], plan, step);
    ComesUp(h, plan, step, s, later);
  }

  /** Some instant from which the session is up, if there is one. */
  ghost function Arrival(h: seq<Instant>, plan: Plan, step: string): (s: nat)
    ensures (exists t: nat :: Comes(h, plan, step, t)) ==> Comes(h, plan, step, s)
  {
    if t: nat :| Comes(h, plan, step, t) then t else 0
  }

  /** The reasons of a first read that ends the waiting. */
  lemma {:induction false} FirstReadExcuses(
    h: seq<Instant>, plan: Plan, hash: string, step: string, at: nat, session: Session, clock: nat,
    sampledAt: map<string, nat>, reason: Reason)
    requires SampledAfter(h, at, session, clock, sampledAt)
    requires Unavailable(h[at].candidate, session.owner, session.leaders, TaskAt(h[at].candidate, step)) == Some(reason)
    ensures Excuses(h, plan, hash, step, Times(at, at + 1, sampledAt, at, at + 1), Lost(reason))
  {
    UnavailableMeans(h[at].candidate, step, session.owner, session.leaders);
    LossIsFound(h, step, Times(at, at + 1, sampledAt, at, at + 1), session, clock, reason);
  }

  lemma {:induction false} TimeToSample(at: nat, s: nat, recorded: nat, services: nat, end: nat)
    requires InTime(at, s, services, end) && recorded <= services
    ensures at + 1 + recorded < end
  {
  }

  lemma {:induction false} RunMoved(h: seq<Instant>, i: nat, j: nat)
    requires i <= j < |h| && h[i].candidate.run != h[j].candidate.run
    ensures !Forward(h)
  {
  }

  /** The session comes up, and this read leaves the time to see it. */
  ghost predicate OnCourse(h: seq<Instant>, plan: Plan, step: string, s: nat, at: nat) {
    Comes(h, plan, step, s) && InTime(at, s, |plan.services|, |h|)
  }

  /** On course a read is as it should be, and there is time to sample after it. */
  lemma {:induction false} OnCourseReads(h: seq<Instant>, plan: Plan, step: string, s: nat, at: nat, first: nat)
    requires OnCourse(h, plan, step, s, at) && first <= at < |h|
    ensures PlanFits(h[at].candidate, plan) && h[at].candidate.run == h[first].candidate.run
    ensures at + 1 + |h[at].candidate.services.Keys| < |h|
  {
    ComesUp(h, plan, step, s, at);
    ComesUp(h, plan, step, s, first);
    TimeToSample(at, s, |h[at].candidate.services.Keys|, |plan.services|, |h|);
  }

  /** On course the next read comes, and is on course as well. */
  lemma {:induction false} OnCourseNext(
    h: seq<Instant>, plan: Plan, step: string, s: nat, at: nat, clock: nat, later: nat)
    requires OnCourse(h, plan, step, s, at) && at < s
    requires at < clock <= at + 2 + |h[at].candidate.services.Keys|
    requires clock <= later && forall i :: clock <= i < later && i < |h| ==> h[i].busy
    ensures later < |h| && !h[later].expired && OnCourse(h, plan, step, s, later)
  {
    ComesUp(h, plan, step, s, at);
    ComesOnTime(h, plan, step, s, at, clock, later);
  }

  lemma {:induction false} ReadExcuses(
    h: seq<Instant>, plan: Plan, hash: string, step: string, times: Times, at: nat, stop: Stop)
    requires stop == Exhausted || (stop == Expired && at < |h| && h[at].expired)
    ensures Excuses(h, plan, hash, step, times, stop)
  {
  }

  lemma {:induction false} OnCourseAvailable(
    h: seq<Instant>, plan: Plan, step: string, s: nat, at: nat, session: Session, clock: nat,
    sampledAt: map<string, nat>)
    requires OnCourse(h, plan, step, s, at) && SampledAfter(h, at, session, clock, sampledAt)
    ensures Unavailable(h[at].candidate, session.owner, session.leaders, TaskAt(h[at].candidate, step)) == None
  {
    UndisturbedIsAvailable(h, plan, step, s, at, session, clock, sampledAt, at);
  }

  lemma {:induction false} CorruptExcuses(
    h: seq<Instant>, plan: Plan, hash: string, step: string, first: nat, at: nat, times: Times)
    requires first <= at < |h|
    requires !PlanFits(h[at].candidate, plan) || h[at].candidate.run != h[first].candidate.run
    ensures Excuses(h, plan, hash, step, times, Corrupt)
  {
    if PlanFits(h[at].candidate, plan) { RunMoved(h, first, at); }
  }

  lemma {:induction false} SessionSampled(
    h: seq<Instant>, at: nat, session: Session, clock: nat, sampledAt: map<string, nat>)
    requires at + 2 <= |h| && clock == at + 2 + |h[at].candidate.services.Keys| <= |h|
    requires session.owner == SampleOwner(h[at + 1].processes, h[at].candidate.run)
    requires SampledBy(h[at].candidate, h, h[at].candidate.services.Keys, at + 2, clock, session.leaders, sampledAt)
    ensures SampledAfter(h, at, session, clock, sampledAt)
  {
  }

  /** The checks of one read, and the samples taken after it. */
  method CheckRead(
      h: seq<Instant>, plan: Plan, hash: string, step: string, c: Candidate, immutable: Provenance, at: nat,
      ghost first: nat, ghost s: nat)
    returns (r: Result<Session, Stop>, clock: nat, ghost sampledAt: map<string, nat>, ghost times: Times)
    requires first <= at < |h| && c == h[at].candidate && h[first].candidate.run == immutable
    ensures r.Ok? ==> SampledAfter(h, at, r.value, clock, sampledAt) && PlanFits(c, plan) && c.run == immutable
    ensures r.Ok? ==> Unavailable(c, r.value.owner, r.value.leaders, TaskAt(c, step)) == None
    ensures r.Err? ==> Excuses(h, plan, hash, step, times, r.error)
    ensures OnCourse(h, plan, step, s, at) ==> r.Ok?
  {
    times, sampledAt, clock := Times(at, 0, map[], 0, 0), map[], at;
    hide OnCourse, Excuses, Unavailable, PlanFits, SampledBy, SampleOwner, SampleService, TaskAt, SampledAfter;
    var fits := ValidatePlan(c, plan);
    if OnCourse(h, plan, step, s, at) { OnCourseReads(h, plan, step, s, at, first); }
    if !fits || c.run != immutable {
      CorruptExcuses(h, plan, hash, step, first, at, times);
      return Err(Corrupt), clock, sampledAt, times;
    }
    r, clock, sampledAt := SampleSession(c, h, at + 1);
    if r.Err? {
      ReadExcuses(h, plan, hash, step, times, at, Exhausted);
      return;
    }
    SessionSampled(h, at, r.value, clock, sampledAt);
    var reason := Unavailable(c, r.value.owner, r.value.leaders, TaskAt(c, step));
    if OnCourse(h, plan, step, s, at) { OnCourseAvailable(h, plan, step, s, at, r.value, clock, sampledAt); }
    if reason.Some? {
      FirstReadExcuses(h, plan, hash, step, at, r.value, clock, sampledAt, reason.value);
      times := Times(at, at + 1, sampledAt, at, at + 1);
      r := Err(Lost(reason.value));
    }
  }

  /** One read, judged: the wait goes on if all is well but something not ready yet. */
  method Judge(
      h: seq<Instant>, plan: Plan, hash: string, step: string, c: Candidate, immutable: Provenance, at: nat,
      ghost first: nat, ghost s: nat)
    returns (r: Option<Result<Evidence, Stop>>, clock: nat, ghost times: Times)
    requires first <= at < |h| && c == h[at].candidate && h[first].candidate.run == immutable
    ensures r.None? ==> at < clock <= at + 2 + |c.services.Keys|
    ensures r.Some? && r.value.Ok? ==> Rests(h, plan, step, times, r.value.value) && r.value.value.run == immutable
    ensures r.Some? && r.value.Err? ==> Excuses(h, plan, hash, step, times, r.value.error)
    ensures OnCourse(h, plan, step, s, at) ==> if r.Some? then r.value.Ok? else at < s
  {
    if Comes(h, plan, step, s) { ComesUp(h, plan, step, s, at); }
    hide Comes, Unavailable, PlanFits, Usable, Rests, Excuses, Forward, InTime, IsReady, SuccessfulTask, AllReady;
    var checked;
    ghost var sampledAt;
    checked, clock, sampledAt, times := CheckRead(h, plan, hash, step, c, immutable, at, first, s);
    if checked.Err? { return Some(Err(checked.error)), clock, times; }
    var task := TaskAt(c, step);
    if !IsReady(c, plan, task) { return None, clock, times; }
    var confirmed;
    confirmed, times := Confirm(h, plan, hash, step, c, checked.value, clock, task.value, at, sampledAt, s);
    return Some(confirmed), clock, times;
  }

  /** Waits until the task and the services are ready, then makes sure. Whatever
      it reports as lost is recorded or was sampled; and if nothing goes wrong and
      the session comes up in time, it is waited for and reported. */
  method Await(h: seq<Instant>, plan: Plan, hash: string, step: string)
    returns (r: Result<Evidence, Stop>, ghost times: Times)
    ensures r.Ok? ==> Rests(h, plan, step, times, r.value) && r.value.run.hash == hash
    ensures r.Ok? ==> SettledEvidence(plan, step, r.value)
    ensures r.Err? ==> Excuses(h, plan, hash, step, times, r.error)
    ensures (exists s: nat :: Comes(h, plan, step, s)) && h[0].candidate.run.hash == hash ==> r.Ok?
    ensures Steady(h, plan, step) && h[0].candidate.run.hash == hash ==> r.Ok?
  {
    times := Times(0, 0, map[], 0, 0);
    ghost var s := Arrival(h, plan, step);
    ghost var comes := Comes(h, plan, step, s);
    if Steady(h, plan, step) { SteadyComes(h, plan, step); }
    hide Steady, Comes, Rests, SettledEvidence, OnCourse, PlanFits, LossFound, Forward;
    var read, at := ReadCandidate(h, 0);
    if comes { ComesFirst(h, plan, step, s, at); }
    if read.Err? { return Err(read.error), times; }
    var c := read.value;
    var immutable := c.run;
    ghost var first := at;
    times := Times(at, 0, map[], 0, 0);
    if immutable.hash != hash { return Err(RequestMismatch), times; }
    if step !in plan.leaves { return Err(UnknownStep), times; }
    hide Excuses;
    while true
      invariant first <= at < |h| && c == h[at].candidate && h[first].candidate.run == immutable
      invariant comes ==> OnCourse(h, plan, step, s, at)
      decreases |h| - at
    {
      var judged, clock;
      judged, clock, times := Judge(h, plan, hash, step, c, immutable, at, first, s);
      if judged.Some? {
        if judged.value.Ok? { EvidenceMeans(h, plan, step, times, judged.value.value); }
        return judged.value, times;
      }
      ghost var before := at;
      read, at := ReadCandidate(h, clock);
      if comes { OnCourseNext(h, plan, step, s, before, clock, at); }
      if read.Err? {
        ReadExcuses(h, plan, hash, step, times, at, read.error);
        return Err(read.error), times;
      }
      c := read.value;
    }
  }

  // ---- The double collect ----

  /** The run and the task are as reported, the task settled successfully. */
  predicate Stands(c: Candidate, step: string, e: Evidence) {
    c.run == e.run && step in c.roots && c.roots[step] == e.task && SuccessfulTask(e.task)
  }

  lemma {:induction false} StillStands(a: Candidate, b: Candidate, step: string, e: Evidence)
    requires CandidateAdvances(a, b) && Stands(a, step, e)
    ensures Stands(b, step, e) && b.run == a.run
  {
    assert FactsAdvance(a.roots[step], b.roots[step]);
  }

  /** A task that settled well stays as it is, and so does its run: the owner
      sampled last was still theirs. */
  lemma {:induction false} ReportStands(h: seq<Instant>, plan: Plan, step: string, times: Times, e: Evidence)
    requires Forward(h) && Rests(h, plan, step, times, e)
    ensures forall t :: times.reread <= t < |h| ==> Stands(h[t].candidate, step, e)
    ensures times.reread < times.ownerAgain < |h|
    ensures SampleOwner(h[times.ownerAgain].processes, h[times.ownerAgain].candidate.run) == Live
  {
    var after := h[times.reread].candidate;
    assert Stands(after, step, e);
    hide Usable, Stands, SampleService, SampleOwner, IdentitiesUnchanged, CandidateAdvances;
    forall t | times.reread <= t < |h| ensures Stands(h[t].candidate, step, e) {
      StillStands(after, h[t].candidate, step, e);
    }
    StillStands(after, h[times.ownerAgain].candidate, step, e);
  }

  /** If registry facts only move forward, a success means: at every instant
      between the two reads the run was executing with no successor, its task
      settled successfully and all planned services ready, and every process
      sampled live was the one recorded at that very instant. At the last sample,
      after the second read, the run and its task were still as reported and
      their owner live. */
  lemma {:induction false} DoubleCollect(h: seq<Instant>, plan: Plan, step: string, times: Times, e: Evidence)
    requires Forward(h) && Rests(h, plan, step, times, e)
    ensures forall t :: times.read <= t <= times.reread ==>
      Usable(h[t].candidate, plan, step) && h[t].candidate.run == e.run && h[t].candidate.roots[step] == e.task
    ensures SampleOwner(h[times.owner].processes, h[times.owner].candidate.run) == Live
    ensures times.reread < times.ownerAgain < |h| && Stands(h[times.ownerAgain].candidate, step, e)
    ensures SampleOwner(h[times.ownerAgain].processes, h[times.ownerAgain].candidate.run) == Live
    ensures forall id :: id in plan.services ==>
      var t := times.services[id];
      && times.read < t < times.reread && id in h[t].candidate.services
      && SampleService(h[t].processes, h[t].candidate.services[id].process) == Live
      && SameIdentity(h[t].candidate.services[id], e.services[id])
  {
    ReportStands(h, plan, step, times, e);
    forall t | times.read <= t <= times.reread
      ensures Usable(h[t].candidate, plan, step) && h[t].candidate.run == e.run && h[t].candidate.roots[step] == e.task
      ensures forall id :: id in h[times.read].candidate.services ==>
        id in h[t].candidate.services && SameIdentity(h[times.read].candidate.services[id], h[t].candidate.services[id])
    {
      UsableBetween(h[times.read].candidate, h[t].candidate, h[times.reread].candidate, plan, step);
    }
    forall id | id in plan.services
      ensures var t := times.services[id];
        && times.read < t < times.reread && id in h[t].candidate.services
        && SampleService(h[t].processes, h[t].candidate.services[id].process) == Live
        && SameIdentity(h[t].candidate.services[id], e.services[id])
    {
      var t := times.services[id];
      assert SameIdentity(h[times.read].candidate.services[id], h[t].candidate.services[id]);
      assert SameIdentity(h[times.read].candidate.services[id], e.services[id]);
    }
  }
}
