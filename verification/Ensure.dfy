/** One owner's path to a decision (control/ensure.rs): read, try the guard,
    read again under it, and only then hand the registry over for writing. */
module Ensure {
  import opened Wrappers
  import opened Cursors
  import opened Exchange

  datatype GuardAttempt = Contended | Granted | GuardFailed

  /** What one read of the registry meets, with the checks made before it. */
  datatype Look = Look(canceled: bool, channel: Inbound, reading: Reading)

  /** One round before the guard, and the reads made under it. */
  datatype Round = Round(look: Look, sameRequest: bool, attempt: GuardAttempt, under: seq<Look>, sameUnder: bool)

  datatype Decision =
    | Selected(publication: Publication)
    | AuthorityReleased(publication: Publication)
    | Establish
    | Refused
    | Undecided

  ghost predicate Readable(look: Look) {
    look.reading.Present? ==> Ordered(look.reading.table.events)
  }

  ghost predicate AllReadable(rounds: seq<Round>) {
    forall r <- rounds :: Readable(r.look) && forall l <- r.under :: Readable(l)
  }

  /** The reading shows this publication first after the watermark. */
  ghost predicate ShowsFirst(reading: Reading, watermark: int, p: Publication) {
    reading.Present? && FirstAfter(Published(reading.table.events), watermark) == Some(p)
  }

  ghost predicate ShowsNone(reading: Reading, watermark: int) {
    reading != Busy && (reading.Present? ==> FirstAfter(Published(reading.table.events), watermark).None?)
  }

  /** A reason not to go on: cancelled, abandoned, already past the precommit
      phase, or a reading that stands for no later history. */
  ghost predicate Stopped(look: Look, phase: Phase, history: History) {
    || look.canceled || look.channel != NothingYet || phase != Precommit
    || (look.reading != Busy && forall after, s :: !ReadsAs(look.reading, history, after, s))
  }

  /** Nobody gave up. */
  predicate Open(look: Look) {
    !look.canceled && look.channel == NothingYet
  }

  datatype Looked = Found(publication: Publication) | NoneFound | Again | Failed

  /** One checked read: cancellation and abandonment first, then the registry. */
  method LookOnce(look: Look, seeking: Seeking, owner: Establishment) returns (r: Looked)
    requires seeking.Valid() && owner.Valid() && Readable(look)
    modifies seeking
    ensures seeking.Valid() && Advances(old(seeking.history), seeking.history)
    ensures r.Found? ==> ShowsFirst(look.reading, seeking.watermark, r.publication)
    ensures r.NoneFound? ==> ShowsNone(look.reading, seeking.watermark)
    ensures r.Again? || r.Failed? ==> seeking.history == old(seeking.history)
    ensures r.Again? ==> look.reading == Busy
    ensures !r.Failed? ==> Open(look) && owner.phase == Precommit
    ensures r.Failed? ==> Stopped(look, owner.phase, seeking.history)
  {
    AdvancesIsPartialOrder(seeking.history, seeking.history, seeking.history);
    if look.canceled { return Failed; }
    var present := owner.CheckAbandonment(look.channel);
    if present.Err? { return Failed; }
    var read := seeking.Read(look.reading);
    if read.Err? { return Failed; }
    if read.value.None? { return Again; }
    match FirstIn(read.value.value, seeking.watermark)
    case None => return NoneFound;
    case Some(p) => return Found(p);
  }

  /** The first `n` reads met a registry that was busy. */
  ghost predicate AllBusy(looks: seq<Look>, n: nat) {
    n <= |looks| && forall i :: 0 <= i < n ==> Open(looks[i]) && looks[i].reading == Busy
  }

  /** Reading under the guard until a read succeeds. */
  method LookUnderGuard(looks: seq<Look>, seeking: Seeking, owner: Establishment) returns (r: Looked, ghost last: nat)
    requires seeking.Valid() && owner.Valid() && forall l <- looks :: Readable(l)
    modifies seeking
    ensures seeking.Valid() && Advances(old(seeking.history), seeking.history)
    ensures r.Found? ==> last < |looks| && ShowsFirst(looks[last].reading, seeking.watermark, r.publication)
    ensures r.NoneFound? ==> last < |looks| && ShowsNone(looks[last].reading, seeking.watermark)
    ensures r.Found? || r.NoneFound? ==> last < |looks| && Open(looks[last]) && owner.phase == Precommit
    ensures r.Failed? ==> last < |looks| && Stopped(looks[last], owner.phase, seeking.history)
    ensures AllBusy(looks, if r.Again? then |looks| else last)
  {
    AdvancesIsPartialOrder(seeking.history, seeking.history, seeking.history);
    last := 0;
    for i := 0 to |looks|
      invariant seeking.Valid() && Advances(old(seeking.history), seeking.history)
      invariant AllBusy(looks, i)
    {
      last := i;
      ghost var before := seeking.history;
      r := LookOnce(looks[i], seeking, owner);
      AdvancesIsPartialOrder(old(seeking.history), before, seeking.history);
      if !r.Again? { return; }
    }
    return Again, last;
  }

  /** A round that decides nothing: the registry was busy, or showed no run while
      another held the guard. */
  ghost predicate Passed(r: Round, watermark: int) {
    Open(r.look) && (r.look.reading == Busy || (ShowsNone(r.look.reading, watermark) && r.attempt == Contended))
  }

  /** The first read under the guard that was not busy. */
  ghost predicate FirstUnder(r: Round, i: nat) {
    AllBusy(r.under, i) && i < |r.under| && Open(r.under[i]) && r.under[i].reading != Busy
  }

  ghost predicate GuardedClear(r: Round, watermark: int) {
    Open(r.look) && ShowsNone(r.look.reading, watermark) && r.attempt == Granted
  }

  /** What a decision rests on in the round that makes it. */
  ghost predicate DecidedBy(d: Decision, r: Round, watermark: int) {
    match d
    case Selected(p) => Open(r.look) && r.sameRequest && ShowsFirst(r.look.reading, watermark, p)
    case AuthorityReleased(p) =>
      && GuardedClear(r, watermark) && r.sameUnder
      && exists i: nat :: FirstUnder(r, i) && ShowsFirst(r.under[i].reading, watermark, p)
    case Establish =>
      GuardedClear(r, watermark) && exists i: nat :: FirstUnder(r, i) && ShowsNone(r.under[i].reading, watermark)
    case Refused => true
    case Undecided => GuardedClear(r, watermark) && AllBusy(r.under, |r.under|)
  }

  /** The first round that does not pass decides; nothing is decided only when
      every round passes, or when each read under the guard met a busy registry. */
  ghost predicate Rests(d: Decision, rounds: seq<Round>, watermark: int) {
    || d == Refused
    || (d == Undecided && AllPassed(rounds, |rounds|, watermark))
    || DecidedIn(d, rounds, watermark)
  }

  ghost predicate DecidedIn(d: Decision, rounds: seq<Round>, watermark: int) {
    exists i :: 0 <= i < |rounds| && AllPassed(rounds, i, watermark) && DecidedBy(d, rounds[i], watermark)
  }

  ghost predicate AllPassed(rounds: seq<Round>, n: nat, watermark: int) {
    n <= |rounds| && forall i :: 0 <= i < n ==> Passed(rounds[i], watermark)
  }

  ghost predicate ShowsSome(reading: Reading, watermark: int) {
    exists p :: ShowsFirst(reading, watermark, p)
  }

  ghost predicate Unlearnable(purpose: Purpose, watermark: int, history: History) {
    purpose.Daemon? || AdvanceTo(purpose.cursor, FromChecked(watermark, history)).Err?
  }

  /** Why the read at `i` under the guard ends in a refusal. */
  ghost predicate ExcusedUnder(r: Round, i: nat, phase: Phase, purpose: Purpose, watermark: int, history: History) {
    && AllBusy(r.under, i) && i < |r.under|
    && (|| Stopped(r.under[i], phase, history)
        || (ShowsSome(r.under[i].reading, watermark) && !r.sameUnder)
        || (ShowsNone(r.under[i].reading, watermark) && Unlearnable(purpose, watermark, history)))
  }

  /** Why a round ends in a refusal. */
  ghost predicate ExcusedBy(r: Round, phase: Phase, purpose: Purpose, watermark: int, history: History) {
    || Stopped(r.look, phase, history)
    || (ShowsSome(r.look.reading, watermark) && !r.sameRequest)
    || (ShowsNone(r.look.reading, watermark) && r.attempt == GuardFailed)
    || (GuardedClear(r, watermark) && exists i: nat :: ExcusedUnder(r, i, phase, purpose, watermark, history))
  }

  /** A refusal has its reason in the first round that does not pass. */
  ghost predicate Excused(rounds: seq<Round>, phase: Phase, purpose: Purpose, watermark: int, history: History) {
    exists i :: 0 <= i < |rounds| && AllPassed(rounds, i, watermark)
      && ExcusedBy(rounds[i], phase, purpose, watermark, history)
  }

  /** What happens once the guard is granted: it is kept only to establish. */
  method Guarded(round: Round, seeking: Seeking, owner: Establishment) returns (d: Decision, held: bool)
    requires seeking.Valid() && owner.Valid() && forall l <- round.under :: Readable(l)
    requires GuardedClear(round, seeking.watermark)
    modifies seeking, owner`purpose
    ensures seeking.Valid() && owner.Valid() && Advances(old(seeking.history), seeking.history)
    ensures DecidedBy(d, round, seeking.watermark) && !d.Selected?
    ensures d.Refused? ==> ExcusedBy(round, owner.phase, owner.purpose, seeking.watermark, seeking.history)
    ensures held <==> d == Establish || d == Undecided
    ensures d == Establish ==>
      owner.phase == Precommit && owner.purpose == Shared(FromChecked(seeking.watermark, seeking.history))
    ensures d != Establish ==> owner.purpose == old(owner.purpose)
  {
    var looked, last := LookUnderGuard(round.under, seeking, owner);
    match looked
    case Again => return Undecided, true;
    case Failed =>
      assert ExcusedUnder(round, last, owner.phase, owner.purpose, seeking.watermark, seeking.history);
      return Refused, false;
    case Found(p) =>
      assert !round.sameUnder ==>
        ExcusedUnder(round, last, owner.phase, owner.purpose, seeking.watermark, seeking.history);
      if !round.sameUnder { return Refused, false; }
      return AuthorityReleased(p), false;
    case NoneFound =>
      var cursor := seeking.Cursor();
      var learned := owner.LearnSharedCursor(cursor);
      if learned.Err? {
        assert ExcusedUnder(round, last, owner.phase, owner.purpose, seeking.watermark, seeking.history);
        return Refused, false;
      }
      FromCheckedUndoesChecked(cursor);
      return Establish, true;
  }

  /** The whole acquisition. A selection is made without ever taking the guard;
      a decision leaves the guard held exactly when the run is to be
      established, and then the last read under it showed no earlier run. */
  method AcquireShared(rounds: seq<Round>, seeking: Seeking, owner: Establishment, sameScope: bool, sameExpected: bool)
    returns (d: Decision, held: bool)
    requires seeking.Valid() && owner.Valid() && AllReadable(rounds)
    modifies seeking, owner`purpose
    ensures seeking.Valid() && owner.Valid() && Advances(old(seeking.history), seeking.history)
    ensures Rests(d, rounds, seeking.watermark)
    ensures (d == Establish ==> held) && (held ==> d == Establish || d == Undecided)
    ensures d == Undecided && held ==> DecidedIn(Undecided, rounds, seeking.watermark)
    ensures d == Undecided && !held ==> AllPassed(rounds, |rounds|, seeking.watermark)
    ensures d == Undecided && rounds != [] ==> owner.phase == Precommit
    ensures d == Establish ==>
      owner.phase == Precommit && owner.purpose == Shared(FromChecked(seeking.watermark, seeking.history))
    ensures d != Establish ==> owner.purpose == old(owner.purpose)
    ensures !sameScope || !sameExpected ==> d == Refused
    ensures d.Refused? ==>
      !sameScope || !sameExpected || Excused(rounds, owner.phase, owner.purpose, seeking.watermark, seeking.history)
  {
    AdvancesIsPartialOrder(seeking.history, seeking.history, seeking.history);
    if !sameScope || !sameExpected { return Refused, false; }
    for i := 0 to |rounds|
      invariant seeking.Valid() && owner.Valid() && Advances(old(seeking.history), seeking.history)
      invariant owner.purpose == old(owner.purpose)
      invariant AllPassed(rounds, i, seeking.watermark)
      invariant i > 0 ==> owner.phase == Precommit
    {
      var round := rounds[i];
      assert round in rounds;
      ghost var before := seeking.history;
      var looked := LookOnce(round.look, seeking, owner);
      AdvancesIsPartialOrder(old(seeking.history), before, seeking.history);
      match looked
      case Again =>
      case Failed => return Refused, false;
      case Found(p) =>
        if !round.sameRequest { return Refused, false; }
        return Selected(p), false;
      case NoneFound =>
        match round.attempt
        case Contended =>
        case GuardFailed => return Refused, false;
        case Granted =>
          before := seeking.history;
          d, held := Guarded(round, seeking, owner);
          AdvancesIsPartialOrder(old(seeking.history), before, seeking.history);
          return;
    }
    return Undecided, false;
  }

  // ---- The launcher's own check of a reply ----

  /** One turn of the launcher: it may give up, or read and compare the request recorded. */
  datatype Reread = Reread(givesUp: bool, reading: Reading, sameRequest: bool)

  datatype Confirmed = Pins(publication: Publication) | Differs | Declined | StillBusy

  function CursorOf(s: Selection): CursorWire {
    match s
    case SelectedEstablished(_, cursor) => cursor
    case SelectedExisting(_, _, cursor) => cursor
  }

  /** The publication is the one the helper selected. */
  predicate Names(s: Selection, p: Publication) {
    match s
    case SelectedEstablished(acknowledgement, _) => p.run == acknowledgement.run
    case SelectedExisting(run, sequence, _) => p.run == run && p.sequence == sequence
  }

  /** An established run is named by itself, an existing one with its sequence. */
  lemma {:induction false} NamesMeans(s: Selection, p: Publication)
    ensures Names(s, p) <==>
      || (s.SelectedEstablished? && p.run == s.acknowledgement.run)
      || (s.SelectedExisting? && p.run == s.run && p.sequence == s.sequence)
  {
  }

  /** The launcher merges what the helper learned and pins the selection only
      when its own read shows that run first after the frozen watermark; a
      reply that says otherwise is refused, and never believed. */
  method SelectReply(seeking: Seeking, selection: Selection, rereads: seq<Reread>) returns (d: Confirmed)
    requires seeking.Valid() && forall r <- rereads :: r.reading.Present? ==> Ordered(r.reading.table.events)
    modifies seeking
    ensures seeking.Valid() && Advances(old(seeking.history), seeking.history)
    ensures d.Pins? ==> Names(selection, d.publication)
    ensures d.Pins? && selection.SelectedEstablished? ==> d.publication.run == selection.acknowledgement.run
    ensures d.Pins? && selection.SelectedExisting? ==>
      d.publication.run == selection.run && d.publication.sequence == selection.sequence
    ensures d.Pins? ==>
      exists r <- rereads :: r.sameRequest && ShowsFirst(r.reading, seeking.watermark, d.publication)
    ensures d.Differs? ==> exists r <- rereads ::
      && r.reading != Busy
      && forall p :: ShowsFirst(r.reading, seeking.watermark, p) ==> !Names(selection, p)
    ensures d.StillBusy? ==> forall r <- rereads :: r.reading == Busy && !r.givesUp
    ensures d.Declined? ==>
      || CursorOf(selection).watermark != seeking.watermark || Checked(CursorOf(selection)).Err?
      || !Advances(old(seeking.history), Checked(CursorOf(selection)).value)
      || exists r <- rereads ::
           || r.givesUp || !r.sameRequest
           || (r.reading != Busy && forall after, s :: !ReadsAs(r.reading, seeking.history, after, s))
    ensures d.Pins? || d.Differs? ==>
      && CursorOf(selection).watermark == seeking.watermark && Checked(CursorOf(selection)).Ok?
      && Advances(Checked(CursorOf(selection)).value, seeking.history)
  {
    var merged := seeking.MergeCursor(CursorOf(selection));
    if merged.Err? { return Declined; }
    for i := 0 to |rereads|
      invariant seeking.Valid() && Advances(old(seeking.history), seeking.history)
      invariant Advances(Checked(CursorOf(selection)).value, seeking.history)
      invariant forall r <- rereads[..i] :: r.reading == Busy && !r.givesUp
    {
      var turn := rereads[i];
      assert turn in rereads && rereads[..i + 1] == rereads[..i] + [turn];
      if turn.givesUp { return Declined; }
      ghost var before := seeking.history;
      var read := seeking.Read(turn.reading);
      AdvancesIsPartialOrder(old(seeking.history), before, seeking.history);
      AdvancesIsPartialOrder(Checked(CursorOf(selection)).value, before, seeking.history);
      if read.Err? { return Declined; }
      if read.value.Some? {
        var first := FirstIn(read.value.value, seeking.watermark);
        if first.None? || !Names(selection, first.value) { return Differs; }
        if !turn.sameRequest { return Declined; }
        return Pins(first.value);
      }
    }
    assert rereads[..|rereads|] == rereads;
    return StillBusy;
  }

  /** A selection that was first in the helper's table is first in any table the
      launcher reads later: it is never found to differ. */
  lemma {:induction false} TrueSelectionNeverDiffers(
    before: Table, reading: Reading, watermark: int, selection: Selection, p: Publication)
    requires FirstAfter(Published(before.events), watermark) == Some(p) && Names(selection, p)
    requires reading.Present? && Grew(before, reading.table)
    ensures forall q :: ShowsFirst(reading, watermark, q) <==> q == p
    ensures exists q :: ShowsFirst(reading, watermark, q) && Names(selection, q)
  {
    ObserversAgree(before, reading.table, watermark);
    assert ShowsFirst(reading, watermark, p);
  }
}
