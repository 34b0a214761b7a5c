/** Establishing one shared run per slot (control/ensure.rs, background.rs,
    main.rs): any number of launchers and the owners they spawn, racing each
    other and ordinary runs for the slot guard over one append-only event log,
    with crashes and cut channels at any point. */
module Protocol {
  import opened Wrappers
  import opened Exchange

  /** A launch names its run by its own number; other runs are strangers. */
  datatype Run = Candidate(k: nat) | Foreign(n: nat)

  /** The event log; an event's sequence is its position plus one. */
  datatype Entry = Created(run: Run) | Other

  datatype Holder = Nobody | OwnerOf(k: nat) | Stranger(n: nat)

  /** Where an owner process is. `Published` lies between the commit and the
      phase mark that follows it. */
  datatype Pc = Unstarted | Seeking | Clear | Guarded | Preparing | Published | Running | Serving | Ended

  datatype Answer = SaysEstablished | SaysExisting(at: nat, run: Run, learned: nat) | SaysRejected

  datatype Stage = Dispatching | Awaiting | Finished(certainty: Certainty)

  datatype Launch = Launch(
    watermark: nat, stage: Stage, pc: Pc, phase: Phase, learned: nat,
    found: bool, wrote: bool, answer: Option<Answer>)

  datatype State = State(log: seq<Entry>, guard: Holder, launches: seq<Launch>)

  datatype Action =
    | Enrolls
    | Dispatches(k: nat)
    | GivesUp(k: nat)
    | TakesAnswer(k: nat)
    | Looks(k: nat, sent: bool)
    | Acquires(k: nat)
    | Rechecks(k: nat, sent: bool)
    | Writes(k: nat)
    | Commits(k: nat)
    | Marks(k: nat)
    | Acknowledges(k: nat, sent: bool)
    | Finishes(k: nat)
    | Fails(k: nat, sent: bool)
    | Crashes(k: nat)
    | StrangerAcquires(n: nat)
    | StrangerWrites(n: nat, creates: Option<nat>)
    | StrangerLeaves(n: nat)

  // ---- The log ----

  predicate Has(log: seq<Entry>, run: Run) {
    Created(run) in log
  }

  /** Position of the first creation event behind a watermark. */
  function FirstCreated(log: seq<Entry>, from: nat): (r: Option<nat>)
    ensures r.Some? ==> from <= r.value < |log| && log[r.value].Created?
    ensures r.Some? ==> forall i :: from <= i < r.value ==> !log[i].Created?
    ensures r.None? ==> forall i :: from <= i < |log| ==> !log[i].Created?
    decreases |log| - from
  {
    if from >= |log| then None
    else if log[from].Created? then Some(from)
    else FirstCreated(log, from + 1)
  }

  /** The publishing transaction's own check: with the new event the run is the
      first after the watermark, in a log no shorter than what was learned. */
  predicate MayPublish(s: State, k: nat)
    requires k < |s.launches|
  {
    var longer := s.log + [Created(Candidate(k))];
    FirstCreated(longer, s.launches[k].watermark) == Some(|s.log|) && s.launches[k].learned <= |longer|
  }

  // ---- Steps ----

  function With(s: State, k: nat, l: Launch): State
    requires k < |s.launches|
  {
    s.(launches := s.launches[k := l])
  }

  function Released(s: State, k: nat): Holder {
    if s.guard == OwnerOf(k) then Nobody else s.guard
  }

  /** Ends an owner; its guard, if it held it, is free. */
  function Ending(s: State, k: nat, l: Launch): State
    requires k < |s.launches|
  {
    With(s, k, l.(pc := Ended)).(guard := Released(s, k))
  }

  function CertaintyOfAnswer(a: Answer): Certainty {
    match a
    case SaysEstablished => Established
    case SaysExisting(_, _, _) => NotEstablished
    case SaysRejected => NotEstablished
  }

  /** An error is reported only from the precommit phase. */
  function Failing(l: Launch, sent: bool): Launch {
    if l.phase == Precommit then l.(phase := Replied, answer := if sent then Some(SaysRejected) else None) else l
  }

  /** The next state, if the action is possible. */
  function Step(s: State, a: Action): Option<State> {
    match a
    case Enrolls =>
      var l := Launch(|s.log|, Dispatching, Unstarted, Precommit, |s.log|, false, false, None);
      Some(s.(launches := s.launches + [l]))
    case StrangerAcquires(n) => if s.guard == Nobody then Some(s.(guard := Stranger(n))) else None
    case StrangerLeaves(n) => if s.guard == Stranger(n) then Some(s.(guard := Nobody)) else None
    case StrangerWrites(n, creates) =>
      var e := match creates case None => Other case Some(m) => Created(Foreign(m));
      if s.guard == Stranger(n) && (e.Created? ==> !Has(s.log, e.run)) then Some(s.(log := s.log + [e])) else None
    case _ => if a.k < |s.launches| then LaunchStep(s, a, s.launches[a.k]) else None
  }

  function LaunchStep(s: State, a: Action, l: Launch): Option<State>
    requires !a.Enrolls? && !a.StrangerAcquires? && !a.StrangerLeaves? && !a.StrangerWrites?
    requires a.k < |s.launches| && l == s.launches[a.k]
  {
    match a
    // The launcher: the whole request goes out, or the helper is killed.
    case Dispatches(k) =>
      if l.stage != Dispatching then None
      else Some(With(s, k, l.(stage := Awaiting, pc := if l.pc == Unstarted then Seeking else l.pc)))
    case GivesUp(k) =>
      if l.stage == Dispatching then Some(With(s, k, l.(stage := Finished(NotEstablished), pc := Ended)))
      else if l.stage == Awaiting then Some(With(s, k, l.(stage := Finished(Uncertain))))
      else None
    case TakesAnswer(k) =>
      if l.stage != Awaiting || l.answer.None? then None
      else Some(With(s, k, l.(stage := Finished(CertaintyOfAnswer(l.answer.value)))))
    // The owner, before and under the guard.
    case Looks(k, sent) =>
      if l.pc != Seeking then None
      else
        (match FirstCreated(s.log, l.watermark)
         case None => Some(With(s, k, l.(pc := Clear, learned := |s.log|)))
         case Some(at) => Some(Ending(s, k, l.(found := true, learned := |s.log|, phase := Replied,
           answer := if sent then Some(SaysExisting(at, s.log[at].run, |s.log|)) else None))))
    case Acquires(k) =>
      if l.pc != Clear then None
      else if s.guard != Nobody then Some(With(s, k, l.(pc := Seeking)))
      else Some(With(s, k, l.(pc := Guarded)).(guard := OwnerOf(k)))
    case Rechecks(k, sent) =>
      if l.pc != Guarded then None
      else
        (match FirstCreated(s.log, l.watermark)
         case None => Some(With(s, k, l.(pc := Preparing, learned := |s.log|)))
         case Some(_) => Some(Ending(s, k, Failing(l.(found := true, learned := |s.log|), sent))))
    case Writes(k) =>
      if l.pc !in {Preparing, Running, Serving} then None
      else Some(With(s, k, l.(wrote := true)).(log := s.log + [Other]))
    case Commits(k) =>
      if l.pc != Preparing || !MayPublish(s, k) then None
      else
        var next := With(s, k, l.(pc := Published, wrote := true, learned := |s.log| + 1));
        Some(next.(log := s.log + [Created(Candidate(k))]))
    case Marks(k) => if l.pc != Published then None else Some(With(s, k, l.(pc := Running, phase := Committed)))
    case Acknowledges(k, sent) =>
      if l.pc != Running then None
      else Some(With(s, k, l.(pc := Serving, phase := Replied, answer := if sent then Some(SaysEstablished) else None)))
    case Finishes(k) => if l.pc != Serving then None else Some(Ending(s, k, l))
    // Any error but between commit and mark; a crash anywhere.
    case Fails(k, sent) =>
      if l.pc in {Unstarted, Published, Ended} then None else Some(Ending(s, k, Failing(l, sent)))
    case Crashes(k) => if l.pc == Ended then None else Some(Ending(s, k, l))
  }

  const START := State([], Nobody, [])

  /** The state after a schedule, if every action of it was possible. */
  function After(s: State, actions: seq<Action>): Option<State>
    decreases |actions|
  {
    if actions == [] then Some(s)
    else
      match After(s, actions[..|actions| - 1])
      case None => None
      case Some(before) => Step(before, actions[|actions| - 1])
  }

  ghost predicate Reachable(s: State) {
    exists actions :: After(START, actions) == Some(s)
  }

  // ---- What every reachable state keeps ----

  predicate HoldsGuard(pc: Pc) {
    pc in {Guarded, Preparing, Published, Running, Serving}
  }

  ghost predicate CreatedOnce(log: seq<Entry>) {
    forall i, j :: 0 <= i < j < |log| && log[i].Created? ==> log[i] != log[j]
  }

  /** What holds of one launch, given the log. */
  ghost predicate LaunchHolds(log: seq<Entry>, k: nat, l: Launch) {
    && l.watermark <= l.learned <= |log|
    && OwnerHolds(log, k, l)
    && AnswerHolds(log, k, l)
    && StageHolds(log, k, l)
    && (Has(log, Candidate(k)) ==> IsFirst(log, l.watermark, Candidate(k)))
    && (l.found ==> l.pc == Ended && !l.wrote && !Has(log, Candidate(k)))
  }

  ghost predicate IsFirst(log: seq<Entry>, watermark: nat, run: Run) {
    var first := FirstCreated(log, watermark);
    first.Some? && log[first.value] == Created(run)
  }

  ghost predicate OwnerHolds(log: seq<Entry>, k: nat, l: Launch) {
    && (l.pc in {Unstarted, Seeking, Clear, Guarded, Preparing} ==>
          !Has(log, Candidate(k)) && l.phase == Precommit && l.answer.None? && !l.found)
    && (l.pc in {Unstarted, Seeking, Clear, Guarded} ==> !l.wrote)
    && (l.pc == Preparing ==> FirstCreated(log, l.watermark).None?)
    && (l.pc in {Published, Running, Serving} ==> Has(log, Candidate(k)))
    && (l.pc == Published ==> l.phase == Precommit && l.answer.None?)
    && (l.pc == Running ==> l.phase == Committed && l.answer.None?)
    && (l.pc == Serving ==> l.phase == Replied)
    && (l.phase == Committed ==> Has(log, Candidate(k)))
  }

  ghost predicate AnswerHolds(log: seq<Entry>, k: nat, l: Launch) {
    match l.answer
    case None => true
    case Some(SaysEstablished) => Has(log, Candidate(k))
    case Some(SaysExisting(at, run, learned)) =>
      && l.pc == Ended && !Has(log, Candidate(k)) && l.watermark <= learned <= |log|
      && FirstCreated(log, l.watermark) == Some(at) && log[at] == Created(run)
    case Some(SaysRejected) => l.pc == Ended && !Has(log, Candidate(k))
  }

  ghost predicate StageHolds(log: seq<Entry>, k: nat, l: Launch) {
    && (l.stage == Dispatching ==> l.pc in {Unstarted, Ended} && !Has(log, Candidate(k)) && l.answer.None?)
    && (l.pc == Unstarted ==> l.stage == Dispatching)
    && (l.stage == Finished(Established) ==> Has(log, Candidate(k)))
    && (l.stage == Finished(NotEstablished) ==> l.pc == Ended && !Has(log, Candidate(k)))
  }

  ghost predicate GuardHolds(s: State) {
    && (s.guard.OwnerOf? ==> s.guard.k < |s.launches| && HoldsGuard(s.launches[s.guard.k].pc))
    && forall k :: 0 <= k < |s.launches| && HoldsGuard(s.launches[k].pc) ==> s.guard == OwnerOf(k)
  }

  ghost predicate Invariant(s: State) {
    && CreatedOnce(s.log)
    && (forall k :: k >= |s.launches| ==> !Has(s.log, Candidate(k)))
    && GuardHolds(s)
    && forall k :: 0 <= k < |s.launches| ==> LaunchHolds(s.log, k, s.launches[k])
  }

  // ---- Keeping it ----

  lemma {:induction false} FirstCreatedAppend(log: seq<Entry>, e: Entry, from: nat)
    requires from <= |log|
    ensures var before := FirstCreated(log, from); var after := FirstCreated(log + [e], from);
      after == if before.Some? then before else if e.Created? then Some(|log|) else None
    decreases |log| - from
  {
    if from < |log| && !log[from].Created? {
      FirstCreatedAppend(log, e, from + 1);
    }
  }

  lemma {:induction false} HasAppend(log: seq<Entry>, e: Entry, run: Run)
    ensures Has(log + [e], run) <==> Has(log, run) || e == Created(run)
  {
  }

  /** An event of somebody else changes nothing a launch relies on, unless the
      launch is about to publish. */
  lemma {:induction false} AppendKeepsLaunch(log: seq<Entry>, e: Entry, k: nat, l: Launch)
    requires LaunchHolds(log, k, l) && e != Created(Candidate(k)) && (e.Created? ==> l.pc != Preparing)
    ensures LaunchHolds(log + [e], k, l)
  {
    HasAppend(log, e, Candidate(k));
    FirstCreatedAppend(log, e, l.watermark);
  }

  lemma {:induction false} AppendKeepsLog(s: State, e: Entry)
    requires CreatedOnce(s.log) && (e.Created? ==> !Has(s.log, e.run))
    ensures CreatedOnce(s.log + [e])
  {
    var longer := s.log + [e];
    forall i, j | 0 <= i < j < |longer| && longer[i].Created? ensures longer[i] != longer[j] {
      assert longer[i] == s.log[i] && longer[i] in s.log;
    }
  }

  /** Under the guard, after the recheck, the publishing check cannot fail. */
  lemma {:induction false} PreparedMayPublish(s: State, k: nat)
    requires Invariant(s) && k < |s.launches| && s.launches[k].pc == Preparing
    ensures MayPublish(s, k)
  {
    assert LaunchHolds(s.log, k, s.launches[k]);
    FirstCreatedAppend(s.log, Created(Candidate(k)), s.launches[k].watermark);
  }

  /** Changing one launch, and nothing in the log. */
  lemma {:induction false} LaunchChanged(s: State, next: State, k: nat)
    requires Invariant(s) && k < |s.launches| == |next.launches| && next.log == s.log
    requires next.launches == s.launches[k := next.launches[k]]
    requires LaunchHolds(s.log, k, next.launches[k]) && GuardHolds(next)
    ensures Invariant(next)
  {
  }

  lemma {:induction false} LauncherKeeps(s: State, a: Action)
    requires Invariant(s) && (a.Dispatches? || a.GivesUp? || a.TakesAnswer?) && Step(s, a).Some?
    ensures Invariant(Step(s, a).value)
  {
    assert LaunchHolds(s.log, a.k, s.launches[a.k]);
    LaunchChanged(s, Step(s, a).value, a.k);
  }

  lemma {:induction false} SeekerKeeps(s: State, a: Action)
    requires Invariant(s) && (a.Looks? || a.Acquires? || a.Rechecks?) && Step(s, a).Some?
    ensures Invariant(Step(s, a).value)
  {
    var next := Step(s, a).value;
    assert LaunchHolds(s.log, a.k, s.launches[a.k]);
    LaunchChanged(s, next, a.k);
  }

  lemma {:induction false} OwnerKeeps(s: State, a: Action)
    requires Invariant(s) && (a.Marks? || a.Acknowledges? || a.Finishes? || a.Fails? || a.Crashes?) && Step(s, a).Some?
    ensures Invariant(Step(s, a).value)
  {
    var next := Step(s, a).value;
    assert LaunchHolds(s.log, a.k, s.launches[a.k]);
    LaunchChanged(s, next, a.k);
  }

  lemma {:induction false} WriterKeeps(s: State, a: Action)
    requires Invariant(s) && (a.Writes? || a.Commits?) && Step(s, a).Some?
    ensures Invariant(Step(s, a).value)
  {
    var next := Step(s, a).value;
    var e := next.log[|s.log|];
    AppendKeepsLog(s, e);
    forall k | k >= |s.launches| ensures !Has(next.log, Candidate(k)) { HasAppend(s.log, e, Candidate(k)); }
    assert LaunchHolds(s.log, a.k, s.launches[a.k]);
    HasAppend(s.log, e, Candidate(a.k));
    FirstCreatedAppend(s.log, e, s.launches[a.k].watermark);
    forall k | 0 <= k < |s.launches| && k != a.k ensures LaunchHolds(next.log, k, next.launches[k]) {
      AppendKeepsLaunch(s.log, e, k, s.launches[k]);
    }
  }

  lemma {:induction false} StrangerKeeps(s: State, a: Action)
    requires Invariant(s) && (a.StrangerAcquires? || a.StrangerWrites? || a.StrangerLeaves?) && Step(s, a).Some?
    ensures Invariant(Step(s, a).value)
  {
    var next := Step(s, a).value;
    if a.StrangerWrites? {
      var e := next.log[|s.log|];
      AppendKeepsLog(s, e);
      forall k: nat ensures Has(next.log, Candidate(k)) <==> Has(s.log, Candidate(k)) {
        HasAppend(s.log, e, Candidate(k));
      }
      forall k | 0 <= k < |s.launches| ensures LaunchHolds(next.log, k, next.launches[k]) {
        AppendKeepsLaunch(s.log, e, k, s.launches[k]);
      }
    }
  }

  lemma {:induction false} EnrollKeeps(s: State)
    requires Invariant(s)
    ensures Invariant(Step(s, Enrolls).value)
  {
    var next := Step(s, Enrolls).value;
    forall k | 0 <= k < |next.launches| ensures LaunchHolds(next.log, k, next.launches[k]) {
      if k < |s.launches| { assert next.launches[k] == s.launches[k]; }
    }
  }

  lemma {:induction false} StepKeeps(s: State, a: Action)
    requires Invariant(s) && Step(s, a).Some?
    ensures Invariant(Step(s, a).value)
  {
    match a
    case Enrolls => EnrollKeeps(s);
    case Dispatches(_) => LauncherKeeps(s, a);
    case GivesUp(_) => LauncherKeeps(s, a);
    case TakesAnswer(_) => LauncherKeeps(s, a);
    case Looks(_, _) => SeekerKeeps(s, a);
    case Acquires(_) => SeekerKeeps(s, a);
    case Rechecks(_, _) => SeekerKeeps(s, a);
    case Writes(_) => WriterKeeps(s, a);
    case Commits(_) => WriterKeeps(s, a);
    case Marks(_) => OwnerKeeps(s, a);
    case Acknowledges(_, _) => OwnerKeeps(s, a);
    case Finishes(_) => OwnerKeeps(s, a);
    case Fails(_, _) => OwnerKeeps(s, a);
    case Crashes(_) => OwnerKeeps(s, a);
    case StrangerAcquires(_) => StrangerKeeps(s, a);
    case StrangerWrites(_, _) => StrangerKeeps(s, a);
    case StrangerLeaves(_) => StrangerKeeps(s, a);
  }

  lemma {:induction false} AfterKeeps(s: State, actions: seq<Action>)
    requires Invariant(s) && After(s, actions).Some?
    ensures Invariant(After(s, actions).value)
    decreases |actions|
  {
    if actions != [] {
      AfterKeeps(s, actions[..|actions| - 1]);
      StepKeeps(After(s, actions[..|actions| - 1]).value, actions[|actions| - 1]);
    }
  }

  lemma {:induction false} ReachableKeeps(s: State)
    requires Reachable(s)
    ensures Invariant(s)
  {
    var actions :| After(START, actions) == Some(s);
    AfterKeeps(START, actions);
  }

  // ---- What stays, whatever happens next ----

  /** A launch only moves forward: what was decided about it stays decided. */
  ghost predicate Later(s: State, next: State) {
    && s.log <= next.log && |s.launches| <= |next.launches|
    && forall k :: 0 <= k < |s.launches| ==> LaterLaunch(s.launches[k], next.launches[k])
  }

  ghost predicate LaterLaunch(l: Launch, next: Launch) {
    && next.watermark == l.watermark && next.learned >= l.learned
    && (l.stage.Finished? ==> next.stage == l.stage)
    && (l.pc == Ended ==> next.pc == Ended)
    && (l.found ==> next.found)
    && (l.answer.Some? ==> next.answer == l.answer)
  }

  lemma {:induction false} OwnStepIsLater(s: State, a: Action, l: Launch)
    requires !a.Enrolls? && !a.StrangerAcquires? && !a.StrangerLeaves? && !a.StrangerWrites?
    requires a.k < |s.launches| && l == s.launches[a.k] && LaunchHolds(s.log, a.k, l) && LaunchStep(s, a, l).Some?
    ensures var next := LaunchStep(s, a, l).value;
      && |next.launches| == |s.launches| && next.launches == s.launches[a.k := next.launches[a.k]]
      && s.log <= next.log && LaterLaunch(l, next.launches[a.k])
  {
  }

  lemma {:induction false} StepIsLater(s: State, a: Action)
    requires Invariant(s) && Step(s, a).Some?
    ensures Later(s, Step(s, a).value)
  {
    if !a.Enrolls? && !a.StrangerAcquires? && !a.StrangerLeaves? && !a.StrangerWrites? {
      OwnStepIsLater(s, a, s.launches[a.k]);
    }
  }

  lemma {:induction false} AfterIsLater(s: State, actions: seq<Action>)
    requires Invariant(s) && After(s, actions).Some?
    ensures Later(s, After(s, actions).value)
    decreases |actions|
  {
    if actions != [] {
      var middle := After(s, actions[..|actions| - 1]).value;
      AfterIsLater(s, actions[..|actions| - 1]);
      AfterKeeps(s, actions[..|actions| - 1]);
      StepIsLater(middle, actions[|actions| - 1]);
      forall k | 0 <= k < |s.launches| ensures LaterLaunch(s.launches[k], After(s, actions).value.launches[k]) {
        assert LaterLaunch(s.launches[k], middle.launches[k]);
      }
    }
  }

  lemma {:induction false} FirstCreatedStays(log: seq<Entry>, longer: seq<Entry>, from: nat)
    requires log <= longer && FirstCreated(log, from).Some?
    ensures FirstCreated(longer, from) == FirstCreated(log, from)
    decreases |log| - from
  {
    assert longer[from] == log[from];
    if !log[from].Created? { FirstCreatedStays(log, longer, from + 1); }
  }

  // ---- The guarantees ----

  /** A committed shared run is the first run created after its own watermark. */
  lemma {:induction false} CommittedIsFirst(s: State, k: nat)
    requires Reachable(s) && k < |s.launches| && Has(s.log, Candidate(k))
    ensures IsFirst(s.log, s.launches[k].watermark, Candidate(k))
  {
    ReachableKeeps(s);
    assert LaunchHolds(s.log, k, s.launches[k]);
  }

  /** Two launches whose watermarks both precede the other's publication never
      both establish. */
  lemma {:induction false} NeverBothEstablish(s: State, j: nat, k: nat, atJ: nat, atK: nat)
    requires Reachable(s) && j < |s.launches| && k < |s.launches| && j != k
    requires atJ < |s.log| && s.log[atJ] == Created(Candidate(j))
    requires atK < |s.log| && s.log[atK] == Created(Candidate(k))
    ensures !(s.launches[j].watermark <= atK && s.launches[k].watermark <= atJ)
  {
    CommittedIsFirst(s, j);
    CommittedIsFirst(s, k);
    ReachableKeeps(s);
    CreatedAt(s.log, FirstCreated(s.log, s.launches[j].watermark).value, atJ);
    CreatedAt(s.log, FirstCreated(s.log, s.launches[k].watermark).value, atK);
  }

  lemma {:induction false} CreatedAt(log: seq<Entry>, i: nat, j: nat)
    requires CreatedOnce(log) && i < |log| && j < |log| && log[i].Created? && log[i] == log[j]
    ensures i == j
  {
  }

  /** A seeker that finds an earlier publication has written nothing and, from
      then on, never does. */
  lemma {:induction false} FinderNeverWrites(s: State, k: nat, actions: seq<Action>)
    requires Reachable(s) && k < |s.launches| && s.launches[k].found && After(s, actions).Some?
    ensures var later := After(s, actions).value;
      k < |later.launches| && !later.launches[k].wrote && !Has(later.log, Candidate(k))
  {
    ReachableKeeps(s);
    AfterKeeps(s, actions);
    AfterIsLater(s, actions);
    var later := After(s, actions).value;
    assert LaterLaunch(s.launches[k], later.launches[k]) && LaunchHolds(later.log, k, later.launches[k]);
  }

  /** Under the guard the publishing check never refuses. */
  lemma {:induction false} PublishingNeverRefused(s: State, k: nat)
    requires Reachable(s) && k < |s.launches| && s.launches[k].pc == Preparing
    ensures Step(s, Commits(k)).Some?
  {
    ReachableKeeps(s);
    PreparedMayPublish(s, k);
  }

  /** What a launcher reports is true then and stays true: "not established"
      means the candidate is not and never will be committed, "established"
      means it is. */
  lemma {:induction false} CertaintyIsSound(s: State, k: nat, actions: seq<Action>)
    requires Reachable(s) && k < |s.launches| && s.launches[k].stage.Finished? && After(s, actions).Some?
    ensures s.launches[k].stage.certainty == NotEstablished ==> !Has(After(s, actions).value.log, Candidate(k))
    ensures s.launches[k].stage.certainty == Established ==>
      Has(s.log, Candidate(k)) && Has(After(s, actions).value.log, Candidate(k))
  {
    ReachableKeeps(s);
    AfterKeeps(s, actions);
    AfterIsLater(s, actions);
    var later := After(s, actions).value;
    assert LaunchHolds(s.log, k, s.launches[k]);
    assert LaterLaunch(s.launches[k], later.launches[k]) && LaunchHolds(later.log, k, later.launches[k]);
  }

  /** A rejection is never sent once the run is committed, and a run whose
      rejection was sent is never committed afterwards. */
  lemma {:induction false} NoRejectionAfterCommit(s: State, k: nat, actions: seq<Action>)
    requires Reachable(s) && k < |s.launches| && s.launches[k].answer == Some(SaysRejected) && After(s, actions).Some?
    ensures !Has(s.log, Candidate(k)) && !Has(After(s, actions).value.log, Candidate(k))
  {
    ReachableKeeps(s);
    AfterKeeps(s, actions);
    AfterIsLater(s, actions);
    var later := After(s, actions).value;
    assert LaunchHolds(s.log, k, s.launches[k]);
    assert LaterLaunch(s.launches[k], later.launches[k]) && LaunchHolds(later.log, k, later.launches[k]);
  }

  /** The publication an owner's answer names, by position. */
  function Named(a: Answer, k: nat): Option<Run> {
    match a
    case SaysEstablished => Some(Candidate(k))
    case SaysExisting(_, run, _) => Some(run)
    case SaysRejected => None
  }

  /** However much later the launcher rereads the log, the first publication
      after its watermark is the one the owner's answer named. */
  lemma {:induction false} AnswerNamesTheFirst(s: State, k: nat, actions: seq<Action>)
    requires Reachable(s) && k < |s.launches| && s.launches[k].answer.Some? && After(s, actions).Some?
    requires Named(s.launches[k].answer.value, k).Some?
    ensures IsFirst(After(s, actions).value.log, s.launches[k].watermark, Named(s.launches[k].answer.value, k).value)
    ensures s.launches[k].answer.value.SaysExisting? ==>
      FirstCreated(After(s, actions).value.log, s.launches[k].watermark) == Some(s.launches[k].answer.value.at)
  {
    ReachableKeeps(s);
    AfterIsLater(s, actions);
    assert LaunchHolds(s.log, k, s.launches[k]);
    FirstCreatedStays(s.log, After(s, actions).value.log, s.launches[k].watermark);
  }
}
