/** The owner's own code takes the protocol's steps: its reads and rechecks are
    looks at the log, and its phases are the phases of a launch. */
module Simulation {
  import opened Wrappers
  import opened Cursors
  import opened Exchange
  import opened Ensure
  import opened Registry
  import P = Protocol

  // ---- Reading ----

  /** The reading shows the registry as it stands at this log. */
  ghost predicate ReadsLog(reading: Reading, log: seq<P.Entry>, name: P.Run -> RunId) {
    match reading
    case Busy => false
    case Absent => log == []
    case Empty(_) => log == []
    case Present(_, table) => table == TableOf(log, name)
  }

  /** What a read shows after a watermark is what the log created first. */
  lemma {:induction false} ShowsFirstCreated(reading: Reading, log: seq<P.Entry>, name: P.Run -> RunId, watermark: nat)
    requires ReadsLog(reading, log, name)
    ensures ShowsNone(reading, watermark) <==> P.FirstCreated(log, watermark).None?
    ensures forall p :: ShowsFirst(reading, watermark, p) <==>
      var first := P.FirstCreated(log, watermark);
      first.Some? && p == Publication(name(log[first.value].run), first.value + 1)
  {
    FirstCreatedIsFirstAfter(log, name, watermark);
  }

  lemma {:induction false} AfterJoined(s: P.State, a: seq<P.Action>, b: seq<P.Action>)
    requires P.After(s, a).Some? && P.After(P.After(s, a).value, b).Some?
    ensures P.After(s, a + b) == P.After(P.After(s, a).value, b)
    decreases |b|
  {
    if b == [] {
      assert a + b == a;
    } else {
      AfterJoined(s, a, b[..|b| - 1]);
      assert (a + b)[..|a + b| - 1] == a + b[..|b| - 1];
    }
  }

  lemma {:induction false} AfterOne(s: P.State, a: P.Action)
    ensures P.After(s, [a]) == P.Step(s, a)
  {
    assert [a][..0] == [] && P.After(s, []) == Some(s);
  }

  /** The answer names this publication. */
  ghost predicate AnswersWith(answer: Option<P.Answer>, p: Publication, name: P.Run -> RunId) {
    answer.Some? && answer.value.SaysExisting? && name(answer.value.run) == p.run && answer.value.at + 1 == p.sequence
  }

  /** Looking without the guard: what the read shows decides the step. */
  lemma {:induction false} LookIsAStep(s: P.State, k: nat, sent: bool, reading: Reading, name: P.Run -> RunId)
    requires k < |s.launches| && s.launches[k].pc == P.Seeking && ReadsLog(reading, s.log, name)
    ensures var next := P.Step(s, P.Looks(k, sent)); var w := s.launches[k].watermark;
      && next.Some? && |next.value.launches| == |s.launches|
      && (ShowsNone(reading, w) ==> next.value.launches[k].pc == P.Clear && next.value.guard == s.guard)
      && (forall p :: ShowsFirst(reading, w, p) ==>
            && next.value.launches[k].found && next.value.launches[k].pc == P.Ended
            && (sent ==> AnswersWith(next.value.launches[k].answer, p, name)))
  {
    ShowsFirstCreated(reading, s.log, name, s.launches[k].watermark);
  }

  /** Looking again under the guard: the run is prepared, or the guard released. */
  lemma {:induction false} RecheckIsAStep(s: P.State, k: nat, sent: bool, reading: Reading, name: P.Run -> RunId)
    requires k < |s.launches| && s.launches[k].pc == P.Guarded && s.guard == P.OwnerOf(k)
    requires ReadsLog(reading, s.log, name)
    ensures var next := P.Step(s, P.Rechecks(k, sent)); var w := s.launches[k].watermark;
      && next.Some? && |next.value.launches| == |s.launches|
      && (ShowsNone(reading, w) ==> next.value.launches[k].pc == P.Preparing && next.value.guard == P.OwnerOf(k))
      && (forall p :: ShowsFirst(reading, w, p) ==> next.value.launches[k].found && next.value.guard == P.Nobody)
  {
    ShowsFirstCreated(reading, s.log, name, s.launches[k].watermark);
  }

  /** The evidence of a decision under the guard (a read showing no run, the
      guard granted, a read under it) is a path of the protocol, whatever others
      do between: to the prepared state if the second read shows no run either,
      and otherwise to one that found the other run and released the guard. */
  lemma {:induction false} GuardedDecisionIsAPath(
    s: P.State, k: nat, look: Reading, between: seq<P.Action>, under: Reading, later: seq<P.Action>, sent: bool,
    name: P.Run -> RunId)
    requires P.Reachable(s) && k < |s.launches| && s.launches[k].pc == P.Seeking
    requires ReadsLog(look, s.log, name) && ShowsNone(look, s.launches[k].watermark)
    requires var looked := P.Step(s, P.Looks(k, sent)); looked.Some? && P.After(looked.value, between).Some?
    requires var free := P.After(P.Step(s, P.Looks(k, sent)).value, between).value;
      && free.guard == P.Nobody && k < |free.launches|
      && free.launches[k] == P.Step(s, P.Looks(k, sent)).value.launches[k]
      && var taken := P.Step(free, P.Acquires(k));
      && taken.Some? && P.After(taken.value, later).Some?
      && var held := P.After(taken.value, later).value;
      k < |held.launches| && held.launches[k] == taken.value.launches[k] && ReadsLog(under, held.log, name)
    ensures var end := P.After(s, [P.Looks(k, sent)] + between + [P.Acquires(k)] + later + [P.Rechecks(k, sent)]);
      && end.Some? && k < |end.value.launches|
      && (ShowsNone(under, s.launches[k].watermark) ==>
            end.value.launches[k].pc == P.Preparing && P.MayPublish(end.value, k))
      && (forall p :: ShowsFirst(under, s.launches[k].watermark, p) ==>
            end.value.launches[k].found && end.value.guard == P.Nobody)
  {
    hide ReadsLog, ShowsNone, ShowsFirst, P.Step, P.After, P.MayPublish, P.FirstCreated;
    var looked := P.Step(s, P.Looks(k, sent)).value;
    var free := P.After(looked, between).value;
    var taken := P.Step(free, P.Acquires(k)).value;
    var held := P.After(taken, later).value;
    var before := [P.Looks(k, sent)] + between + [P.Acquires(k)] + later;
    PathTo(s, k, sent, between, later);
    LookIsAStep(s, k, sent, look, name);
    P.ReachableKeeps(s);
    P.AfterKeeps(s, before);
    AcquireIsAStep(free, k);
    P.AfterIsLater(s, before);
    assert P.LaterLaunch(s.launches[k], held.launches[k]);
    RecheckIsAStep(held, k, sent, under, name);
    AfterOne(held, P.Rechecks(k, sent));
    AfterJoined(s, before, [P.Rechecks(k, sent)]);
    P.AfterKeeps(s, before + [P.Rechecks(k, sent)]);
    var end := P.After(s, before + [P.Rechecks(k, sent)]).value;
    if end.launches[k].pc == P.Preparing { P.PreparedMayPublish(end, k); }
  }

  // ---- A whole acquisition ----

  /** What others did around one round of launch `k`: the state its read met,
      what happened until it asked for the guard, and from the grant until each
      read under it. */
  datatype Course = Course(start: P.State, between: seq<P.Action>, later: seq<seq<P.Action>>)

  /** A registry that is busy shows nothing; else it is the log of that state. */
  ghost predicate Met(reading: Reading, log: seq<P.Entry>, name: P.Run -> RunId) {
    reading == Busy || ReadsLog(reading, log, name)
  }

  /** The launch stands as it did, whatever others did in between. */
  ghost predicate StillAt(before: P.State, actions: seq<P.Action>, k: nat) {
    && k < |before.launches| && P.After(before, actions).Some?
    && k < |P.After(before, actions).value.launches|
    && P.After(before, actions).value.launches[k] == before.launches[k]
  }

  /** The guard was free when the owner took it, and its reads came after. */
  ghost predicate TookGuard(r: Round, c: Course, k: nat, sent: bool, name: P.Run -> RunId) {
    && P.Step(c.start, P.Looks(k, sent)).Some? && StillAt(P.Step(c.start, P.Looks(k, sent)).value, c.between, k)
    && var free := P.After(P.Step(c.start, P.Looks(k, sent)).value, c.between).value;
    && free.guard == P.Nobody && P.Step(free, P.Acquires(k)).Some? && |c.later| == |r.under|
    && forall j :: 0 <= j < |r.under| ==> ReadsUnder(r.under[j].reading, P.Step(free, P.Acquires(k)).value,
                                                     c.later[j], k, name)
  }

  ghost predicate ReadsUnder(
    reading: Reading, taken: P.State, later: seq<P.Action>, k: nat, name: P.Run -> RunId)
  {
    StillAt(taken, later, k) && Met(reading, P.After(taken, later).value.log, name)
  }

  /** The round was made in this course of the protocol. */
  ghost predicate Witnessed(r: Round, c: Course, k: nat, watermark: nat, sent: bool, name: P.Run -> RunId) {
    && P.Reachable(c.start) && k < |c.start.launches| && c.start.launches[k].pc == P.Seeking
    && c.start.launches[k].watermark == watermark && Met(r.look.reading, c.start.log, name)
    && (GuardedClear(r, watermark) ==> TookGuard(r, c, k, sent, name))
  }

  /** Where a decision leaves its launch. */
  ghost predicate Decides(d: Decision, end: Option<P.State>, k: nat, sent: bool, name: P.Run -> RunId) {
    && end.Some? && k < |end.value.launches|
    && match d
       case Selected(p) =>
         end.value.launches[k].found && (sent ==> AnswersWith(end.value.launches[k].answer, p, name))
       case AuthorityReleased(_) => end.value.launches[k].found && end.value.guard == P.Nobody
       case Establish => end.value.launches[k].pc == P.Preparing && P.MayPublish(end.value, k)
       case _ => true
  }

  /** Whatever an acquisition decides, the rounds it rests on make a path of the
      protocol that ends there. */
  lemma {:induction false} DecisionIsAPath(
    d: Decision, rounds: seq<Round>, courses: seq<Course>, k: nat, watermark: nat, sent: bool, name: P.Run -> RunId)
    requires Rests(d, rounds, watermark) && (d.Selected? || d.AuthorityReleased? || d.Establish?)
    requires |courses| == |rounds|
    requires forall i :: 0 <= i < |rounds| ==> Witnessed(rounds[i], courses[i], k, watermark, sent, name)
    ensures exists i, path :: 0 <= i < |rounds| && Decides(d, P.After(courses[i].start, path), k, sent, name)
  {
    hide ReadsLog, ShowsNone, ShowsFirst, P.Step, P.After, P.MayPublish, P.FirstCreated;
    var i :| 0 <= i < |rounds| && AllPassed(rounds, i, watermark) && DecidedBy(d, rounds[i], watermark);
    var r, c := rounds[i], courses[i];
    assert Witnessed(r, c, k, watermark, sent, name);
    if d.Selected? {
      BusyShowsNothing(r.look.reading, watermark);
      LookIsAStep(c.start, k, sent, r.look.reading, name);
      AfterOne(c.start, P.Looks(k, sent));
      assert Decides(d, P.After(c.start, [P.Looks(k, sent)]), k, sent, name);
    } else {
      var j: nat :| FirstUnder(r, j)
        && (if d.Establish? then ShowsNone(r.under[j].reading, watermark)
            else ShowsFirst(r.under[j].reading, watermark, d.publication));
      BusyShowsNothing(r.look.reading, watermark);
      var free := P.After(P.Step(c.start, P.Looks(k, sent)).value, c.between).value;
      assert ReadsUnder(r.under[j].reading, P.Step(free, P.Acquires(k)).value, c.later[j], k, name);
      GuardedDecisionIsAPath(
        c.start, k, r.look.reading, c.between, r.under[j].reading, c.later[j], sent, name);
      var path := [P.Looks(k, sent)] + c.between + [P.Acquires(k)] + c.later[j] + [P.Rechecks(k, sent)];
      assert Decides(d, P.After(c.start, path), k, sent, name);
    }
  }

  lemma {:induction false} BusyShowsNothing(reading: Reading, watermark: int)
    ensures reading == Busy ==> !ShowsNone(reading, watermark) && forall p :: !ShowsFirst(reading, watermark, p)
  {
  }

  lemma {:induction false} AcquireIsAStep(s: P.State, k: nat)
    requires k < |s.launches| && s.launches[k].pc == P.Clear && s.guard == P.Nobody
    ensures var next := P.Step(s, P.Acquires(k));
      next.Some? && next.value.launches[k].pc == P.Guarded && next.value.guard == P.OwnerOf(k)
  {
  }

  lemma {:induction false} PathTo(s: P.State, k: nat, sent: bool, between: seq<P.Action>, later: seq<P.Action>)
    requires P.Step(s, P.Looks(k, sent)).Some? && P.After(P.Step(s, P.Looks(k, sent)).value, between).Some?
    requires var free := P.After(P.Step(s, P.Looks(k, sent)).value, between).value;
      P.Step(free, P.Acquires(k)).Some? && P.After(P.Step(free, P.Acquires(k)).value, later).Some?
    ensures var free := P.After(P.Step(s, P.Looks(k, sent)).value, between).value;
      P.After(s, [P.Looks(k, sent)] + between + [P.Acquires(k)] + later) ==
        P.After(P.Step(free, P.Acquires(k)).value, later)
  {
    var free := P.After(P.Step(s, P.Looks(k, sent)).value, between).value;
    AfterOne(s, P.Looks(k, sent));
    AfterJoined(s, [P.Looks(k, sent)], between);
    AfterOne(free, P.Acquires(k));
    AfterJoined(s, [P.Looks(k, sent)] + between, [P.Acquires(k)]);
    AfterJoined(s, [P.Looks(k, sent)] + between + [P.Acquires(k)], later);
  }

  // ---- Phases and replies ----

  /** A reply on the channel says what the protocol's answer says. */
  ghost predicate Says(reply: Reply, answer: P.Answer, name: P.Run -> RunId) {
    match answer
    case SaysEstablished => reply.EstablishedReply?
    case SaysExisting(at, run, _) => reply.ExistingReply? && reply.run == name(run) && reply.sequence == at + 1
    case SaysRejected => reply.RejectedReply?
  }

  /** The owner's end of the channel stands where its launch does. */
  ghost predicate Matches(e: Establishment, l: P.Launch, name: P.Run -> RunId)
    reads e
  {
    && e.phase == l.phase && (e.sent == [] <==> l.answer == None)
    && (|e.sent| == 1 && l.answer.Some? ==> Says(e.sent[0], l.answer.value, name))
  }

  method MarkIsAStep(e: Establishment, ghost s: P.State, ghost k: nat, ghost name: P.Run -> RunId)
    requires P.Invariant(s) && P.Step(s, P.Marks(k)).Some? && e.Valid() && Matches(e, s.launches[k], name)
    modifies e
    ensures e.Valid() && Matches(e, P.Step(s, P.Marks(k)).value.launches[k], name)
  {
    assert P.LaunchHolds(s.log, k, s.launches[k]);
    e.MarkCommitted();
  }

  method AcknowledgeIsAStep(
    e: Establishment, ack: Acknowledgement, delivered: bool, ghost s: P.State, ghost k: nat, ghost name: P.Run -> RunId)
    requires P.Invariant(s) && P.Step(s, P.Acknowledges(k, delivered)).Some? && e.Valid()
    requires Matches(e, s.launches[k], name)
    modifies e
    ensures e.Valid() && Matches(e, P.Step(s, P.Acknowledges(k, delivered)).value.launches[k], name)
  {
    assert P.LaunchHolds(s.log, k, s.launches[k]);
    var acknowledged := e.Acknowledge(ack, delivered);
  }

  /** Selecting what the look found. */
  method SelectedIsAStep(
    e: Establishment, p: Publication, c: CursorWire, delivered: bool, ghost reading: Reading,
    ghost s: P.State, ghost k: nat, ghost name: P.Run -> RunId)
    requires P.Invariant(s) && P.Step(s, P.Looks(k, delivered)).Some? && e.Valid() && Matches(e, s.launches[k], name)
    requires ReadsLog(reading, s.log, name) && ShowsFirst(reading, s.launches[k].watermark, p) && e.purpose.Shared?
    modifies e
    ensures e.Valid() && Matches(e, P.Step(s, P.Looks(k, delivered)).value.launches[k], name)
  {
    assert P.LaunchHolds(s.log, k, s.launches[k]);
    ShowsFirstCreated(reading, s.log, name, s.launches[k].watermark);
    var selected := e.Selected(p.run, p.sequence, c, delivered);
  }

  /** Any failure the owner reports, or keeps to itself once it has committed. */
  method RejectIsAStep(e: Establishment, delivered: bool, ghost s: P.State, ghost k: nat, ghost name: P.Run -> RunId)
    requires P.Invariant(s) && P.Step(s, P.Fails(k, delivered)).Some? && e.Valid() && Matches(e, s.launches[k], name)
    modifies e
    ensures e.Valid() && Matches(e, P.Step(s, P.Fails(k, delivered)).value.launches[k], name)
  {
    assert P.LaunchHolds(s.log, k, s.launches[k]);
    e.Reject(delivered);
  }

  // ---- The launcher's end ----

  /** Every frame that comes in time is unreadable, or says what the owner answered. */
  ghost predicate Carries(incoming: seq<ReadTurn>, met: P.State, k: nat, name: P.Run -> RunId) {
    && k < |met.launches|
    && forall i: nat, b :: Brings(incoming, i, b) && b.Some? ==>
         met.launches[k].answer.Some? && Says(b.value, met.launches[k].answer.value, name)
  }

  /** The launch has ended with this report, which is true and stays true. */
  ghost predicate Reports(end: Option<P.State>, k: nat, c: Certainty) {
    && end.Some? && k < |end.value.launches| && end.value.launches[k].stage == P.Finished(c)
    && forall more :: P.After(end.value, more).Some? ==> TrueOf(c, P.After(end.value, more).value.log, k)
  }

  predicate TrueOf(c: Certainty, log: seq<P.Entry>, k: nat) {
    && (c == Established ==> P.Has(log, P.Candidate(k)))
    && (c == NotEstablished ==> !P.Has(log, P.Candidate(k)))
  }

  lemma {:induction false} ReachableOn(s: P.State, actions: seq<P.Action>)
    requires P.Reachable(s) && P.After(s, actions).Some?
    ensures P.Reachable(P.After(s, actions).value)
  {
    var path :| P.After(P.START, path) == Some(s);
    AfterJoined(P.START, path, actions);
  }

  lemma {:induction false} FinishedReports(s: P.State, k: nat, actions: seq<P.Action>)
    requires P.Reachable(s) && P.After(s, actions).Some?
    requires k < |P.After(s, actions).value.launches| && P.After(s, actions).value.launches[k].stage.Finished?
    ensures Reports(P.After(s, actions), k, P.After(s, actions).value.launches[k].stage.certainty)
  {
    ReachableOn(s, actions);
    var end := P.After(s, actions).value;
    forall more | P.After(end, more).Some?
      ensures TrueOf(end.launches[k].stage.certainty, P.After(end, more).value.log, k)
    {
      P.CertaintyIsSound(end, k, more);
    }
  }

  /** A decoded reply that says what the owner answered means what it means. */
  lemma {:induction false} ReplyCertainty(b: Option<Reply>, candidate: RunId, answer: P.Answer, name: P.Run -> RunId)
    requires b.Some? ==> Says(b.value, answer, name)
    ensures var c := CertaintyOf(DecodeSharedReply(b, candidate)); c == Uncertain || c == P.CertaintyOfAnswer(answer)
  {
  }

  /** What the exchange reports is what the protocol's launcher comes to, whatever
      others do between its request and the reply: an incomplete request is given
      up, a reply that decides is taken, and anything else ends uncertain. So the
      report is true of the log, then and ever after. */
  method ExchangeIsAPath(
    candidate: RunId, frame: nat, outgoing: seq<WriteTurn>, incoming: seq<ReadTurn>,
    ghost s: P.State, ghost k: nat, ghost between: seq<P.Action>, ghost name: P.Run -> RunId)
    returns (o: Outcome)
    requires P.Reachable(s) && k < |s.launches| && s.launches[k].stage == P.Dispatching
    requires P.After(s, [P.Dispatches(k)] + between).Some?
    requires var met := P.After(s, [P.Dispatches(k)] + between).value;
      Carries(incoming, met, k, name) && met.launches[k].stage == P.Awaiting
    ensures o.Incomplete? ==> Reports(P.After(s, [P.GivesUp(k)]), k, NotEstablished)
    ensures o.Dispatched? ==> exists a <- [P.TakesAnswer(k), P.GivesUp(k)] ::
      Reports(P.After(s, [P.Dispatches(k)] + between + [a]), k, o.certainty)
    ensures o.Waiting? <==>
      if frame <= Room(outgoing, 0) then NothingUntil(incoming, |incoming|) else forall t <- outgoing :: !GivesUp(t)
  {
    var written;
    ghost var body;
    o, written, body := SharedExchange(candidate, frame, outgoing, incoming);
    if o.Incomplete? {
      AfterOne(s, P.GivesUp(k));
      FinishedReports(s, k, [P.GivesUp(k)]);
    }
    if o.Dispatched? {
      ghost var sent := [P.Dispatches(k)] + between;
      ghost var met := P.After(s, sent).value;
      if body.Some? {
        var i: nat :| Brings(incoming, i, body.value);
        if body.value.Some? { ReplyCertainty(body.value, candidate, met.launches[k].answer.value, name); }
      }
      ghost var a := if o.certainty == Uncertain then P.GivesUp(k) else P.TakesAnswer(k);
      AfterOne(met, a);
      AfterJoined(s, sent, [a]);
      FinishedReports(s, k, sent + [a]);
      assert a in [P.TakesAnswer(k), P.GivesUp(k)];
    }
  }
}
