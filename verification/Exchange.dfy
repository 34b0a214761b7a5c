/** The launch channel between a launcher and the owner it spawned
    (background.rs): the owner's phase machine, and the launcher's exchange. */
module Exchange {
  import opened Wrappers
  import opened Cursors

  datatype Acknowledgement = Acknowledgement(run: RunId, locators: bool)

  datatype Reply =
    | EstablishedReply(acknowledgement: Acknowledgement, cursor: Option<CursorWire>)
    | ExistingReply(run: RunId, sequence: int, wire: CursorWire)
    | RejectedReply

  // ---- The owner's end ----

  datatype Purpose = Daemon | Shared(cursor: CursorWire) {
    function Carried(): Option<CursorWire> {
      match this case Daemon => None case Shared(c) => Some(c)
    }
  }

  datatype Phase = Precommit | Committed | Replied

  /** What the owner finds on its end of the channel. */
  datatype Inbound = NothingYet | ClosedOrData

  datatype OwnerError = Transport | Canceled | BadCursor(refusal: Refusal)

  class Establishment {
    var purpose: Purpose
    var phase: Phase
    /** Replies that reached the channel, and whether the run was committed. */
    var sent: seq<Reply>
    ghost var committed: bool

    constructor (purpose: Purpose)
      ensures Valid() && this.purpose == purpose && phase == Precommit && sent == []
    {
      this.purpose, phase, sent, committed := purpose, Precommit, [], false;
    }

    /** At most one reply; it says established exactly when the run was committed. */
    ghost predicate Valid()
      reads this
    {
      && |sent| <= 1
      && (phase == Precommit ==> !committed && sent == [])
      && (phase == Committed ==> committed && sent == [])
      && (sent != [] ==> phase == Replied && (sent[0].EstablishedReply? <==> committed))
    }

    method CheckAbandonment(found: Inbound) returns (r: Result<(), OwnerError>)
      requires Valid()
      ensures r.Ok? <==> phase == Precommit && found == NothingYet
      ensures r == Err(Canceled) <==> phase == Precommit && found == ClosedOrData
    {
      if phase != Precommit { return Err(Transport); }
      if found == NothingYet { return Ok(()); }
      return Err(Canceled);
    }

    /** Before the commit a shared owner may learn more under its watermark. */
    method LearnSharedCursor(c: CursorWire) returns (r: Result<(), OwnerError>)
      requires Valid()
      modifies this`purpose
      ensures Valid()
      ensures r.Ok? <==> phase == Precommit && old(purpose).Shared? && AdvanceTo(old(purpose).cursor, c).Ok?
      ensures purpose == if r.Ok? then Shared(c) else old(purpose)
    {
      if phase != Precommit || purpose.Daemon? { return Err(Transport); }
      var next := AdvanceTo(purpose.cursor, c);
      AdvanceToExactly(purpose.cursor, c);
      if next.Err? { return Err(BadCursor(next.error)); }
      purpose := Shared(next.value);
      return Ok(());
    }

    method MarkCommitted()
      requires Valid() && phase == Precommit
      modifies this`phase, this`committed
      ensures Valid() && phase == Committed && committed
    {
      phase, committed := Committed, true;
    }

    /** The phase moves on whether or not the reply gets through. */
    method WriteReply(reply: Reply, delivered: bool)
      requires Valid() && sent == [] && (reply.EstablishedReply? <==> committed)
      modifies this`phase, this`sent
      ensures Valid() && phase == Replied && sent == if delivered then [reply] else []
    {
      phase := Replied;
      if delivered { sent := [reply]; }
    }

    method Acknowledge(acknowledgement: Acknowledgement, delivered: bool) returns (r: Result<(), OwnerError>)
      requires Valid()
      modifies this`phase, this`sent
      ensures Valid() && (r.Ok? <==> old(phase) == Committed)
      ensures r.Ok? ==> phase == Replied
      ensures r.Ok? ==> sent == if delivered then [EstablishedReply(acknowledgement, purpose.Carried())] else []
      ensures r.Ok? && delivered ==>
        sent[0].cursor == if purpose.Shared? then Some(purpose.cursor) else None
      ensures r.Err? ==> phase == old(phase) && sent == old(sent)
    {
      if phase != Committed { return Err(Transport); }
      WriteReply(EstablishedReply(acknowledgement, purpose.Carried()), delivered);
      return Ok(());
    }

    method Selected(run: RunId, sequence: int, c: CursorWire, delivered: bool) returns (r: Result<(), OwnerError>)
      requires Valid()
      modifies this`phase, this`sent
      ensures Valid() && (r.Ok? <==> old(phase) == Precommit && purpose.Shared?)
      ensures r.Ok? ==> phase == Replied && sent == if delivered then [ExistingReply(run, sequence, c)] else []
      ensures r.Err? ==> phase == old(phase) && sent == old(sent)
    {
      if phase != Precommit || purpose.Daemon? { return Err(Transport); }
      WriteReply(ExistingReply(run, sequence, c), delivered);
      return Ok(());
    }

    /** A failure is reported only while nothing is committed or replied. */
    method Reject(delivered: bool)
      requires Valid()
      modifies this`phase, this`sent
      ensures Valid() && (old(phase) != Precommit ==> phase == old(phase) && sent == old(sent))
      ensures old(phase) == Precommit ==>
        phase == Replied && !committed && sent == if delivered then [RejectedReply] else []
    {
      if phase != Precommit { return; }
      WriteReply(RejectedReply, delivered);
    }
  }

  // ---- The launcher's end ----

  datatype Certainty = NotEstablished | Established | Uncertain

  datatype Selection =
    | SelectedEstablished(acknowledgement: Acknowledgement, cursor: CursorWire)
    | SelectedExisting(run: RunId, sequence: int, cursor: CursorWire)

  datatype Decoded = Selects(selection: Selection) | Rejects

  predicate ValidRunId(run: RunId) {
    run != ""
  }

  /** A reply body decoded against the candidate the launcher sent; None is malformed. */
  function DecodeSharedReply(body: Option<Reply>, candidate: RunId): Option<Decoded> {
    match body
    case None => None
    case Some(RejectedReply) => Some(Rejects)
    case Some(EstablishedReply(ack, cursor)) =>
      if ack.run != candidate || !ValidRunId(ack.run) || !ack.locators then None
      else if cursor.None? || Checked(cursor.value).Err? then None
      else Some(Selects(SelectedEstablished(ack, cursor.value)))
    case Some(ExistingReply(run, sequence, cursor)) =>
      if !ValidRunId(run) || sequence <= 0 || Checked(cursor).Err? then None
      else Some(Selects(SelectedExisting(run, sequence, cursor)))
  }

  /** What a decoded reply says about the candidate. */
  function CertaintyOf(reply: Option<Decoded>): Certainty {
    match reply
    case None => Uncertain
    case Some(Rejects) => NotEstablished
    case Some(Selects(SelectedEstablished(_, _))) => Established
    case Some(Selects(SelectedExisting(_, _, _))) => NotEstablished
  }

  datatype Wrote = Bytes(count: nat) | WriteInterrupted | WriteBlocked | WriteFailed
  datatype WriteTurn = WriteTurn(expired: bool, wrote: Wrote)

  datatype Stepped = Frame(body: Option<Reply>) | NoFrame | Broken
  datatype ReadTurn = ReadTurn(expired: bool, stepped: Stepped, expiredAfter: bool)

  /** How an exchange ended, with the certainty it reports about the candidate;
      Waiting means the schedule ended first. */
  datatype Outcome =
    | Incomplete
    | Dispatched(certainty: Certainty, reply: Option<Decoded>)
    | Waiting

  /** A turn that ends the delivery. */
  predicate GivesUp(t: WriteTurn) {
    t.expired || t.wrote == Bytes(0) || t.wrote == WriteFailed
  }

  /** How many bytes the channel would take before delivery is given up. */
  function Room(turns: seq<WriteTurn>, from: nat): nat
    decreases |turns| - from
  {
    if from >= |turns| || GivesUp(turns[from]) then 0
    else (if turns[from].wrote.Bytes? then turns[from].wrote.count else 0) + Room(turns, from + 1)
  }

  /** The request bytes, until all are taken or delivery is given up: all of them
      go out exactly when the channel has room for them before that. */
  method Deliver(frame: nat, turns: seq<WriteTurn>) returns (delivered: Option<bool>, written: nat)
    ensures written <= frame && (delivered == Some(true) <==> written == frame)
    ensures delivered == Some(true) <==> frame <= Room(turns, 0)
    ensures delivered == Some(false) ==> exists t <- turns :: GivesUp(t)
    ensures delivered == None ==> forall t <- turns :: !GivesUp(t)
  {
    written := 0;
    for i := 0 to |turns|
      invariant written <= frame
      invariant if written < frame then written + Room(turns, i) == Room(turns, 0) else frame <= Room(turns, 0)
      invariant written < frame ==> forall j :: 0 <= j < i ==> !GivesUp(turns[j])
    {
      if written == frame { return Some(true), written; }
      if turns[i].expired { return Some(false), written; }
      match turns[i].wrote
      case Bytes(count) =>
        if count == 0 { return Some(false), written; }
        written := written + if count <= frame - written then count else frame - written;
      case WriteInterrupted =>
      case WriteBlocked =>
      case WriteFailed => return Some(false), written;
    }
    delivered := if written == frame then Some(true) else None;
  }

  /** The first `n` turns brought neither a frame nor the end. */
  ghost predicate NothingUntil(turns: seq<ReadTurn>, n: nat) {
    n <= |turns| && forall i :: 0 <= i < n ==> !turns[i].expired && turns[i].stepped == NoFrame
  }

  /** The first thing these turns bring in time is this frame, at turn `i`. */
  ghost predicate Brings(turns: seq<ReadTurn>, i: nat, body: Option<Reply>) {
    NothingUntil(turns, i) && i < |turns| && !turns[i].expired && turns[i].stepped == Frame(body)
  }

  /** The deadline passes, or the channel breaks, before any frame. */
  ghost predicate CutOff(turns: seq<ReadTurn>) {
    exists i: nat :: NothingUntil(turns, i) && i < |turns| && (turns[i].expired || turns[i].stepped == Broken)
  }

  /** A well-formed acknowledgement of the candidate, with a cursor that decodes. */
  ghost predicate Acknowledges(body: Option<Reply>, candidate: RunId) {
    && body.Some? && body.value.EstablishedReply?
    && body.value.acknowledgement.run == candidate != "" && body.value.acknowledgement.locators
    && body.value.cursor.Some? && Checked(body.value.cursor.value).Ok?
  }

  /** A well-formed selection of a run that exists already. */
  ghost predicate NamesExisting(body: Option<Reply>) {
    && body.Some? && body.value.ExistingReply?
    && body.value.run != "" && body.value.sequence > 0 && Checked(body.value.wire).Ok?
  }

  /** What is reported of a frame, by its own fields: the certainty always, what
      it says unless the deadline passed meanwhile. */
  ghost predicate Reported(o: Outcome, body: Option<Reply>, candidate: RunId, late: bool) {
    && o.Dispatched?
    && (o.certainty == Established <==> Acknowledges(body, candidate))
    && (o.certainty == NotEstablished <==> NamesExisting(body) || (body.Some? && body.value.RejectedReply?))
    && (Acknowledges(body, candidate) && !late ==>
          o.reply == Some(Selects(SelectedEstablished(body.value.acknowledgement, body.value.cursor.value))))
    && (NamesExisting(body) && !late ==>
          o.reply == Some(Selects(SelectedExisting(body.value.run, body.value.sequence, body.value.wire))))
    && (body.Some? && body.value.RejectedReply? && !late ==> o.reply == Some(Rejects))
    && (late || o.certainty == Uncertain ==> o.reply == None)
  }

  /** The decoding of a reply is what its fields say. */
  lemma {:induction false} DecodesByFields(o: Outcome, body: Option<Reply>, candidate: RunId, late: bool)
    requires o.Dispatched? && o.certainty == CertaintyOf(DecodeSharedReply(body, candidate))
    requires o.reply == if late then None else DecodeSharedReply(body, candidate)
    ensures Reported(o, body, candidate, late)
  {
  }

  /** Waiting for one reply once the whole request is out: a frame that comes
      before the deadline and any break is what is reported, and only such a one. */
  method AwaitReply(candidate: RunId, turns: seq<ReadTurn>) returns (o: Outcome, ghost body: Option<Option<Reply>>)
    ensures !o.Incomplete? && (o.Waiting? <==> NothingUntil(turns, |turns|))
    ensures body.Some? ==> exists i: nat :: Brings(turns, i, body.value)
    ensures forall i: nat, b :: Brings(turns, i, b) ==>
      body == Some(b) && o.Dispatched? && o.certainty == CertaintyOf(DecodeSharedReply(b, candidate))
    ensures forall i: nat, b :: Brings(turns, i, b) ==>
      o.Dispatched? && o.reply == if turns[i].expiredAfter then None else DecodeSharedReply(b, candidate)
    ensures forall i: nat, b :: Brings(turns, i, b) ==> Reported(o, b, candidate, turns[i].expiredAfter)
    ensures body.None? && o.Dispatched? ==> CutOff(turns) && o == Dispatched(Uncertain, None)
  {
    body := None;
    for i := 0 to |turns|
      invariant body == None && NothingUntil(turns, i)
    {
      if turns[i].expired { return Dispatched(Uncertain, None), body; }
      match turns[i].stepped
      case Frame(found) =>
        body := Some(found);
        assert Brings(turns, i, found);
        var reply := DecodeSharedReply(found, candidate);
        o := Dispatched(CertaintyOf(reply), reply);
        if turns[i].expiredAfter { o := Dispatched(CertaintyOf(reply), None); }
        DecodesByFields(o, found, candidate, turns[i].expiredAfter);
        return o, body;
      case NoFrame =>
      case Broken => return Dispatched(Uncertain, None), body;
    }
    return Waiting, body;
  }

  /** The launcher only ever speaks of "not established" with an undelivered
      request, a rejection or another run's selection, and only of
      "established" with a valid acknowledgement of its own candidate. */
  lemma {:induction false} CertaintyMeans(body: Option<Reply>, candidate: RunId)
    ensures var c := CertaintyOf(DecodeSharedReply(body, candidate));
      && (c == Established ==>
            body.Some? && body.value.EstablishedReply? && body.value.acknowledgement.run == candidate)
      && (c == NotEstablished ==> body.Some? && !body.value.EstablishedReply?)
      && (c == Established <==> Acknowledges(body, candidate))
      && (c == NotEstablished <==> NamesExisting(body) || (body.Some? && body.value.RejectedReply?))
  {
  }

  /** The whole exchange: incomplete exactly when delivery is given up before the
      channel has taken the request; once all of it is out, what is reported is
      the frame that comes in time, and nothing certain if none does. */
  method SharedExchange(candidate: RunId, frame: nat, outgoing: seq<WriteTurn>, incoming: seq<ReadTurn>)
    returns (o: Outcome, written: nat, ghost body: Option<Option<Reply>>)
    ensures o.Incomplete? <==> Room(outgoing, 0) < frame && exists t <- outgoing :: GivesUp(t)
    ensures o.Dispatched? <==> frame <= Room(outgoing, 0) && !NothingUntil(incoming, |incoming|)
    ensures written <= frame && (frame <= Room(outgoing, 0) <==> written == frame)
    ensures body.Some? ==> o.Dispatched? && exists i: nat :: Brings(incoming, i, body.value)
    ensures o.Dispatched? ==> forall i: nat, b :: Brings(incoming, i, b) ==>
      body == Some(b) && o.certainty == CertaintyOf(DecodeSharedReply(b, candidate)) &&
      o.reply == if incoming[i].expiredAfter then None else DecodeSharedReply(b, candidate)
    ensures o.Dispatched? ==> forall i: nat, b :: Brings(incoming, i, b) ==>
      Reported(o, b, candidate, incoming[i].expiredAfter)
    ensures o.Dispatched? && body.None? ==> CutOff(incoming) && o == Dispatched(Uncertain, None)
    ensures o.Dispatched? && o.certainty == Established ==>
      && body.Some? && body.value.Some?
      && body.value.value.EstablishedReply? && body.value.value.acknowledgement.run == candidate
    ensures o.Dispatched? && o.certainty == NotEstablished ==>
      body.Some? && body.value.Some? && !body.value.value.EstablishedReply?
  {
    var delivered;
    delivered, written := Deliver(frame, outgoing);
    body := None;
    if delivered.None? { return Waiting, written, body; }
    if !delivered.value { return Incomplete, written, body; }
    o, body := AwaitReply(candidate, incoming);
    if body.Some? { CertaintyMeans(body.value, candidate); }
  }
}
