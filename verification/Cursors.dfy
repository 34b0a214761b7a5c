/** What one observer has learned of the registry (registry/observation.rs):
    histories that only move forward, the cursor that carries one between
    processes, and the run publications read from the event table. */
module Cursors {
  import opened Wrappers

  type RunId = string

  datatype FileIdentity = FileIdentity(device: nat, inode: nat)

  datatype History = Unseen | Bootstrap(file: FileIdentity) | Complete(file: FileIdentity, greatest: int)

  datatype Refusal = Disappeared | Regressed | BadWatermark | Incoherent | ChangedWatermark | BadProvenance | NotFirst

  // ---- Moves of a history ----

  predicate Advances(before: History, next: History) {
    match (before, next)
    case (Unseen, _) => true
    case (Bootstrap(a), Bootstrap(b)) => a == b
    case (Bootstrap(a), Complete(b, _)) => a == b
    case (Complete(a, old_), Complete(b, new_)) => a == b && new_ >= old_
    case _ => false
  }

  function Advance(before: History, next: History): Result<History, Refusal> {
    if Advances(before, next) then Ok(next) else Err(Regressed)
  }

  /** The accepted moves are a partial order, with nothing seen at the bottom. */
  lemma {:induction false} AdvancesIsPartialOrder(a: History, b: History, c: History)
    ensures Advances(Unseen, a) && Advances(a, a)
    ensures Advances(a, b) && Advances(b, a) ==> a == b
    ensures Advances(a, b) && Advances(b, c) ==> Advances(a, c)
  {
  }

  function FileOf(h: History): Option<FileIdentity> {
    match h case Unseen => None case Bootstrap(f) => Some(f) case Complete(f, _) => Some(f)
  }

  function GreatestOf(h: History): Option<int> {
    match h case Complete(_, greatest) => Some(greatest) case _ => None
  }

  /** A move is accepted exactly when it forgets nothing that was known: the file
      stays the same once known, and the greatest sequence never falls. */
  lemma {:induction false} AdvancesForgetsNothing(a: History, b: History)
    ensures Advances(a, b) <==>
      && (FileOf(a).Some? ==> FileOf(b) == FileOf(a))
      && (GreatestOf(a).Some? ==> GreatestOf(b).Some? && GreatestOf(b).value >= GreatestOf(a).value)
  {
  }

  // ---- The wire form ----

  datatype HistoryWire =
    | WireUnseen
    | WireBootstrap(device: nat, inode: nat)
    | WireComplete(device: nat, inode: nat, greatest: int)

  datatype CursorWire = CursorWire(watermark: int, history: HistoryWire)

  function FromChecked(watermark: int, history: History): CursorWire {
    CursorWire(watermark,
      match history
      case Unseen => WireUnseen
      case Bootstrap(f) => WireBootstrap(f.device, f.inode)
      case Complete(f, greatest) => WireComplete(f.device, f.inode, greatest))
  }

  function Checked(c: CursorWire): Result<History, Refusal> {
    if c.watermark < 0 then Err(BadWatermark)
    else
      match c.history
      case WireUnseen => if c.watermark == 0 then Ok(Unseen) else Err(Incoherent)
      case WireBootstrap(device, inode) =>
        if c.watermark == 0 then Ok(Bootstrap(FileIdentity(device, inode))) else Err(Incoherent)
      case WireComplete(device, inode, greatest) =>
        if greatest >= c.watermark then Ok(Complete(FileIdentity(device, inode), greatest)) else Err(Incoherent)
  }

  /** The largest event sequence a history vouches for. */
  function Learned(h: History): int {
    match h case Complete(_, greatest) => greatest case _ => 0
  }

  /** A watermark taken from a read of this history or an earlier one. */
  predicate Coherent(watermark: int, history: History) {
    0 <= watermark <= Learned(history)
  }

  /** Encoding a coherent state and decoding it again gives it back, and
      nothing incoherent decodes. */
  lemma {:induction false} CheckedUndoesFromChecked(watermark: int, history: History)
    ensures Checked(FromChecked(watermark, history)) == Ok(history) <==> Coherent(watermark, history)
    ensures Checked(FromChecked(watermark, history)).Ok? <==> Coherent(watermark, history)
  {
  }

  lemma {:induction false} FromCheckedUndoesChecked(c: CursorWire)
    requires Checked(c).Ok?
    ensures FromChecked(c.watermark, Checked(c).value) == c && Coherent(c.watermark, Checked(c).value)
  {
  }

  /** A cursor that learned more keeps its watermark. */
  function AdvanceTo(c: CursorWire, next: CursorWire): Result<CursorWire, Refusal> {
    if c.watermark != next.watermark then Err(ChangedWatermark)
    else
      match Checked(c)
      case Err(e) => Err(e)
      case Ok(history) =>
        match Checked(next)
        case Err(e) => Err(e)
        case Ok(learned) =>
          match Advance(history, learned)
          case Err(e) => Err(e)
          case Ok(h) => Ok(FromChecked(c.watermark, h))
  }

  /** Learning is all or nothing: the next cursor, or a refusal and the old one. */
  lemma {:induction false} AdvanceToExactly(c: CursorWire, next: CursorWire)
    ensures AdvanceTo(c, next).Ok? <==>
      && c.watermark == next.watermark && Checked(c).Ok? && Checked(next).Ok?
      && Advances(Checked(c).value, Checked(next).value)
    ensures AdvanceTo(c, next).Ok? ==> AdvanceTo(c, next).value == next
  {
    if Checked(next).Ok? { FromCheckedUndoesChecked(next); }
  }

  // ---- The event table ----

  /** A row of the event table; creation markers name their run. */
  datatype Event = Event(seq_: int, marker: Option<Marker>)
  datatype Marker = Marker(run: RunId, process: bool, valid: bool)

  /** The rows in primary-key order, and the runs the run table holds. */
  datatype Table = Table(events: seq<Event>, runs: set<RunId>)

  datatype Publication = Publication(run: RunId, sequence: int)

  ghost predicate Ordered(events: seq<Event>) {
    forall i, j :: 0 <= i < j < |events| ==> events[i].seq_ < events[j].seq_
  }

  function Maximum(events: seq<Event>): int {
    if events == [] then 0 else events[|events| - 1].seq_
  }

  /** The creation markers in order. */
  function Published(events: seq<Event>): seq<Publication> {
    if events == [] then []
    else
      var before := Published(events[..|events| - 1]);
      match events[|events| - 1].marker
      case None => before
      case Some(m) => before + [Publication(m.run, events[|events| - 1].seq_)]
  }

  function PublishedRuns(publications: seq<Publication>): set<RunId> {
    set p | p in publications :: p.run
  }

  ghost predicate OncePerRun(publications: seq<Publication>) {
    forall i, j :: 0 <= i < j < |publications| ==> publications[i].run != publications[j].run
  }

  /** Every run has exactly one creation marker and every marker a run. */
  ghost predicate Provenance(t: Table) {
    && (forall e <- t.events :: e.seq_ > 0)
    && (forall e <- t.events :: e.marker.Some? ==> e.marker.value.valid && !e.marker.value.process)
    && OncePerRun(Published(t.events))
    && PublishedRuns(Published(t.events)) == t.runs
  }

  lemma {:induction false} PublishedNext(events: seq<Event>, i: nat)
    requires i < |events|
    ensures Published(events[..i + 1]) == match events[i].marker
      case None => Published(events[..i])
      case Some(m) => Published(events[..i]) + [Publication(m.run, events[i].seq_)]
  {
    assert events[..i + 1][..i] == events[..i];
  }

  lemma {:induction false} PublishedFrom(events: seq<Event>, p: Publication) returns (i: nat)
    requires p in Published(events)
    ensures i < |events| && events[i].marker.Some? && p == Publication(events[i].marker.value.run, events[i].seq_)
    decreases |events|
  {
    var last := |events| - 1;
    if events[last].marker.Some? && p == Publication(events[last].marker.value.run, events[last].seq_) {
      i := last;
    } else {
      i := PublishedFrom(events[..last], p);
    }
  }

  lemma {:induction false} OneMoreRun(publications: seq<Publication>, p: Publication)
    requires OncePerRun(publications) && p.run !in PublishedRuns(publications)
    ensures OncePerRun(publications + [p]) && PublishedRuns(publications + [p]) == PublishedRuns(publications) + {p.run}
  {
    var longer := publications + [p];
    forall i, j | 0 <= i < j < |longer| ensures longer[i].run != longer[j].run {
      assert publications[i] in publications;
    }
    assert longer[|publications|] == p && forall q :: q in longer <==> q in publications || q == p;
  }

  /** The loop over creation markers; any broken provenance refuses the table. */
  method Publications(t: Table) returns (r: Result<(int, seq<Publication>), Refusal>)
    requires Ordered(t.events)
    ensures r.Ok? <==> Provenance(t)
    ensures r.Ok? ==> r.value == (Maximum(t.events), Published(t.events))
  {
    if exists e <- t.events :: e.seq_ <= 0 { return Err(BadProvenance); }
    var publications, seen: set<RunId> := [], {};
    assert PublishedRuns([]) == {} && OncePerRun([]);
    hide PublishedRuns, OncePerRun;
    for i := 0 to |t.events|
      invariant publications == Published(t.events[..i]) && seen == PublishedRuns(publications)
      invariant OncePerRun(publications) && seen <= t.runs
      invariant forall e <- t.events[..i] :: e.marker.Some? ==> e.marker.value.valid && !e.marker.value.process
    {
      PublishedNext(t.events, i);
      assert t.events[..i + 1] == t.events[..i] + [t.events[i]];
      if t.events[i].marker.Some? {
        var m := t.events[i].marker.value;
        if !m.valid || m.process { return Err(BadProvenance); }
        if m.run !in t.runs || m.run in seen {
          RefusedMarker(t, i, publications, m);
          return Err(BadProvenance);
        }
        OneMoreRun(publications, Publication(m.run, t.events[i].seq_));
        publications, seen := publications + [Publication(m.run, t.events[i].seq_)], seen + {m.run};
      }
    }
    assert t.events[..|t.events|] == t.events;
    if seen != t.runs { return Err(BadProvenance); }
    return Ok((Maximum(t.events), publications));
  }

  lemma {:induction false} PublishedPrefix(events: seq<Event>, i: nat)
    requires i <= |events|
    ensures Published(events[..i]) <= Published(events)
    decreases |events| - i
  {
    if i == |events| {
      assert events[..i] == events;
    } else {
      PublishedNext(events, i);
      PublishedPrefix(events, i + 1);
    }
  }

  lemma {:induction false} RefusedMarker(t: Table, i: nat, before: seq<Publication>, m: Marker)
    requires i < |t.events| && t.events[i].marker == Some(m) && before == Published(t.events[..i])
    requires m.run !in t.runs || m.run in PublishedRuns(before)
    ensures !Provenance(t)
  {
    var all := Published(t.events);
    PublishedNext(t.events, i);
    PublishedPrefix(t.events, i + 1);
    assert all[|before|] == Publication(m.run, t.events[i].seq_) && all[|before|] in all;
    if m.run in PublishedRuns(before) {
      var p :| p in before && p.run == m.run;
      var j :| 0 <= j < |before| && before[j] == p;
      assert all[j].run == all[|before|].run;
    }
  }

  // ---- The first publication after a watermark ----

  function FirstAfter(publications: seq<Publication>, watermark: int): Option<Publication> {
    if publications == [] then None
    else if publications[0].sequence > watermark then Some(publications[0])
    else FirstAfter(publications[1..], watermark)
  }

  ghost predicate Ascending(publications: seq<Publication>) {
    forall i, j :: 0 <= i < j < |publications| ==> publications[i].sequence < publications[j].sequence
  }

  lemma {:induction false} PublishedAscend(events: seq<Event>)
    requires Ordered(events)
    ensures Ascending(Published(events))
    decreases |events|
  {
    if events != [] {
      var before := events[..|events| - 1];
      PublishedAscend(before);
      forall p | p in Published(before) ensures p.sequence < events[|events| - 1].seq_ {
        var i := PublishedFrom(before, p);
      }
    }
  }

  /** It is the publication with the least sequence above the watermark. */
  lemma {:induction false} FirstAfterIsLeast(publications: seq<Publication>, watermark: int)
    requires Ascending(publications)
    ensures var first := FirstAfter(publications, watermark);
      && (first.None? <==> forall p <- publications :: p.sequence <= watermark)
      && (first.Some? ==>
            && first.value in publications && first.value.sequence > watermark
            && forall p <- publications :: p.sequence > watermark ==> first.value.sequence <= p.sequence)
    decreases |publications|
  {
    if publications != [] {
      FirstAfterIsLeast(publications[1..], watermark);
      assert forall p <- publications :: p == publications[0] || p in publications[1..];
      assert forall p <- publications[1..] :: p in publications && p.sequence > publications[0].sequence;
    }
  }

  /** In an event table the first publication has the least sequence above the watermark. */
  lemma {:induction false} FirstPublicationIsLeast(t: Table, watermark: int)
    requires Ordered(t.events)
    ensures var publications := Published(t.events); var first := FirstAfter(publications, watermark);
      && (first.None? <==> forall p <- publications :: p.sequence <= watermark)
      && (first.Some? ==>
            && first.value in publications && first.value.sequence > watermark
            && forall p <- publications :: p.sequence > watermark ==> first.value.sequence <= p.sequence)
  {
    PublishedAscend(t.events);
    FirstAfterIsLeast(Published(t.events), watermark);
  }

  /** Whatever is appended later, the first publication stays the first. */
  lemma {:induction false} FirstAfterStable(earlier: seq<Publication>, later: seq<Publication>, watermark: int)
    requires earlier <= later && FirstAfter(earlier, watermark).Some?
    ensures FirstAfter(later, watermark) == FirstAfter(earlier, watermark)
    decreases |earlier|
  {
    if earlier[0].sequence <= watermark { FirstAfterStable(earlier[1..], later[1..], watermark); }
  }

  /** A table that grew: the same rows first, then more. */
  ghost predicate Grew(before: Table, after: Table) {
    before.events <= after.events && Ordered(after.events)
  }

  /** Two observers with one watermark, reading a growing table at different
      times, never disagree on the first publication once one has seen it. */
  lemma {:induction false} ObserversAgree(before: Table, after: Table, watermark: int)
    requires Grew(before, after)
    ensures var first := FirstAfter(Published(before.events), watermark);
      first.Some? ==> FirstAfter(Published(after.events), watermark) == first
    ensures Maximum(before.events) <= Maximum(after.events) || before.events == []
  {
    assert after.events[..|before.events|] == before.events;
    PublishedPrefix(after.events, |before.events|);
    if FirstAfter(Published(before.events), watermark).Some? {
      FirstAfterStable(Published(before.events), Published(after.events), watermark);
    }
  }

  // ---- The check inside the publishing transaction ----

  /** The run is the first publication after the cursor's watermark, in a sound
      registry no older than what the cursor learned. */
  ghost predicate PublishesFirst(c: CursorWire, t: Table, file: FileIdentity, run: RunId) {
    && Provenance(t)
    && Checked(c).Ok? && Advances(Checked(c).value, Complete(file, Maximum(t.events)))
    && exists p :: FirstAfter(Published(t.events), c.watermark) == Some(p) && p.run == run
  }

  /** The check accepts exactly the first run, and what the creating transaction
      hands on is a later cursor with the same watermark. */
  method AfterCreation(c: CursorWire, t: Table, file: FileIdentity, run: RunId) returns (r: Result<CursorWire, Refusal>)
    requires Ordered(t.events)
    ensures r.Ok? <==> PublishesFirst(c, t, file, run)
    ensures r.Ok? ==>
      r.value == FromChecked(c.watermark, Complete(file, Maximum(t.events))) && AdvanceTo(c, r.value) == r
  {
    var found := Publications(t);
    if found.Err? { return Err(found.error); }
    var history := Checked(c);
    if history.Err? { return Err(history.error); }
    var next := Advance(history.value, Complete(file, found.value.0));
    if next.Err? { return Err(next.error); }
    var first := FirstAfter(found.value.1, c.watermark);
    if first.None? || first.value.run != run { return Err(NotFirst); }
    FirstAfterBounded(found.value.1, c.watermark);
    ghost var i := PublishedFrom(t.events, first.value);
    CheckedUndoesFromChecked(c.watermark, next.value);
    r := Ok(FromChecked(c.watermark, next.value));
    AdvanceToExactly(c, r.value);
  }

  lemma {:induction false} FirstAfterBounded(publications: seq<Publication>, watermark: int)
    requires FirstAfter(publications, watermark).Some?
    ensures FirstAfter(publications, watermark).value in publications
    ensures FirstAfter(publications, watermark).value.sequence > watermark
    decreases |publications|
  {
    if publications[0].sequence <= watermark { FirstAfterBounded(publications[1..], watermark); }
  }

  // ---- An enrolled observer ----

  /** What one attempt to read the registry meets. */
  datatype Reading =
    | Busy
    | Absent
    | Empty(file: FileIdentity)
    | Present(file: FileIdentity, table: Table)

  datatype Snapshot = Nothing | Contents(maximum: int, publications: seq<Publication>)

  function FirstIn(s: Snapshot, watermark: int): Option<Publication> {
    match s case Nothing => None case Contents(_, publications) => FirstAfter(publications, watermark)
  }

  /** The history a reading stands for, if it can be read at all. */
  ghost predicate ReadsAs(reading: Reading, before: History, after: History, s: Snapshot) {
    match reading
    case Busy => false
    case Absent => before == Unseen && after == Unseen && s == Nothing
    case Empty(file) => after == Bootstrap(file) && Advances(before, after) && s == Nothing
    case Present(file, t) =>
      && Provenance(t) && after == Complete(file, Maximum(t.events)) && Advances(before, after)
      && s == Contents(Maximum(t.events), Published(t.events))
  }

  method ReadInto(reading: Reading, history: History) returns (r: Result<Option<(Snapshot, History)>, Refusal>)
    requires reading.Present? ==> Ordered(reading.table.events)
    ensures r.Ok? && r.value.None? <==> reading == Busy
    ensures r.Ok? && r.value.Some? ==> ReadsAs(reading, history, r.value.value.1, r.value.value.0)
    ensures r.Err? ==> forall after, s :: !ReadsAs(reading, history, after, s)
  {
    match reading
    case Busy => return Ok(None);
    case Absent =>
      if history != Unseen { return Err(Disappeared); }
      return Ok(Some((Nothing, history)));
    case Empty(file) =>
      var next := Advance(history, Bootstrap(file));
      if next.Err? { return Err(next.error); }
      return Ok(Some((Nothing, next.value)));
    case Present(file, table) =>
      var found := Publications(table);
      if found.Err? { return Err(found.error); }
      var next := Advance(history, Complete(file, found.value.0));
      if next.Err? { return Err(next.error); }
      return Ok(Some((Contents(found.value.0, found.value.1), next.value)));
  }

  /** An enrollment: one frozen watermark, and a history that only learns. */
  class Seeking {
    const watermark: int
    var history: History

    constructor (watermark: int, history: History)
      requires Coherent(watermark, history)
      ensures this.watermark == watermark && this.history == history && Valid()
    {
      this.watermark, this.history := watermark, history;
    }

    ghost predicate Valid()
      reads this
    {
      Coherent(watermark, history)
    }

    method Cursor() returns (c: CursorWire)
      requires Valid()
      ensures Checked(c) == Ok(history) && c.watermark == watermark
    {
      c := FromChecked(watermark, history);
      CheckedUndoesFromChecked(watermark, history);
    }

    /** A read learns or, refused or contended, changes nothing. */
    method Read(reading: Reading) returns (r: Result<Option<Snapshot>, Refusal>)
      requires Valid() && (reading.Present? ==> Ordered(reading.table.events))
      modifies this
      ensures Valid() && Advances(old(history), history)
      ensures r.Ok? && r.value.Some? ==> ReadsAs(reading, old(history), history, r.value.value)
      ensures r.Ok? && r.value.None? <==> reading == Busy
      ensures r.Err? ==> forall after, s :: !ReadsAs(reading, old(history), after, s)
      ensures r.Err? || r.value.None? ==> history == old(history)
    {
      AdvancesIsPartialOrder(history, history, history);
      var read := ReadInto(reading, history);
      if read.Err? { return Err(read.error); }
      if read.value.None? { return Ok(None); }
      history := read.value.value.1;
      return Ok(Some(read.value.value.0));
    }

    /** What another process learned, under the same watermark. */
    method MergeCursor(c: CursorWire) returns (r: Result<(), Refusal>)
      requires Valid()
      modifies this
      ensures Valid() && Advances(old(history), history)
      ensures r.Ok? <==> c.watermark == watermark && Checked(c).Ok? && Advances(old(history), Checked(c).value)
      ensures history == if r.Ok? then Checked(c).value else old(history)
    {
      AdvancesIsPartialOrder(history, history, history);
      if c.watermark != watermark { return Err(ChangedWatermark); }
      var learned := Checked(c);
      if learned.Err? { return Err(learned.error); }
      var next := Advance(history, learned.value);
      if next.Err? { return Err(next.error); }
      FromCheckedUndoesChecked(c);
      history := next.value;
      return Ok(());
    }
  }

  /** Resuming in another process: the same watermark, and what this read made
      of the history; refused exactly when the cursor or the reading is. */
  method Resume(c: CursorWire, reading: Reading) returns (r: Result<Option<Seeking>, Refusal>)
    requires reading.Present? ==> Ordered(reading.table.events)
    ensures r.Ok? && r.value.Some? ==>
      && fresh(r.value.value) && r.value.value.Valid() && r.value.value.watermark == c.watermark
      && Checked(c).Ok? && Advances(Checked(c).value, r.value.value.history)
      && exists s :: ReadsAs(reading, Checked(c).value, r.value.value.history, s)
    ensures r.Ok? && r.value.None? <==> Checked(c).Ok? && reading == Busy
    ensures r.Err? && Checked(c).Ok? ==> forall after, s :: !ReadsAs(reading, Checked(c).value, after, s)
  {
    var checked := Checked(c);
    if checked.Err? { return Err(checked.error); }
    FromCheckedUndoesChecked(c);
    var seeking := new Seeking(c.watermark, checked.value);
    var read := seeking.Read(reading);
    if read.Err? { return Err(read.error); }
    if read.value.None? { return Ok(None); }
    return Ok(Some(seeking));
  }
}
