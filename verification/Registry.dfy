/** The protocol's event log is the registry's event table: positions are
    sequences, and the publishing check is the transaction's own. */
module Registry {
  import opened Wrappers
  import opened Cursors
  import P = Protocol

  /** The table rows of a log, each run under its name. */
  function Rows(log: seq<P.Entry>, name: P.Run -> RunId): (rows: seq<Event>)
    ensures |rows| == |log| && Ordered(rows)
  {
    seq(|log|, i requires 0 <= i < |log| => Row(i, log[i], name))
  }

  function Row(i: nat, e: P.Entry, name: P.Run -> RunId): Event {
    Event(i + 1, match e case Other => None case Created(run) => Some(Marker(name(run), false, true)))
  }

  lemma {:induction false} FirstAfterAppend(publications: seq<Publication>, p: Publication, watermark: int)
    ensures FirstAfter(publications + [p], watermark) ==
      if FirstAfter(publications, watermark).Some? then FirstAfter(publications, watermark)
      else if p.sequence > watermark then Some(p) else None
    decreases |publications|
  {
    if publications == [] {
      assert publications + [p] == [p];
    } else {
      assert (publications + [p])[1..] == publications[1..] + [p];
      FirstAfterAppend(publications[1..], p, watermark);
    }
  }

  lemma {:induction false} RowsAppend(log: seq<P.Entry>, e: P.Entry, name: P.Run -> RunId)
    ensures Rows(log + [e], name)[..|log|] == Rows(log, name)
    ensures Rows(log + [e], name)[|log|] == Row(|log|, e, name)
  {
  }

  /** The first publication after a watermark is the first creation event at or
      behind that position. */
  lemma {:induction false} FirstCreatedIsFirstAfter(log: seq<P.Entry>, name: P.Run -> RunId, watermark: nat)
    ensures FirstAfter(Published(Rows(log, name)), watermark) ==
      match P.FirstCreated(log, watermark)
      case None => None
      case Some(i) => Some(Publication(name(log[i].run), i + 1))
    decreases |log|
  {
    if log != [] {
      var before, e := log[..|log| - 1], log[|log| - 1];
      assert log == before + [e];
      FirstCreatedIsFirstAfter(before, name, watermark);
      RowsAppend(before, e, name);
      if watermark <= |before| { P.FirstCreatedAppend(before, e, watermark); }
      if e.Created? {
        FirstAfterAppend(Published(Rows(before, name)), Publication(name(e.run), |before| + 1), watermark);
      }
    }
  }

  ghost predicate NamesApart(name: P.Run -> RunId) {
    forall a, b :: name(a) == name(b) ==> a == b
  }

  /** The runs a log has created. */
  function RunsOf(log: seq<P.Entry>, name: P.Run -> RunId): set<RunId> {
    set e | e in log && e.Created? :: name(e.run)
  }

  function TableOf(log: seq<P.Entry>, name: P.Run -> RunId): Table {
    Table(Rows(log, name), RunsOf(log, name))
  }

  /** What a log with each run created once publishes. */
  lemma {:induction false} PublishedRows(log: seq<P.Entry>, name: P.Run -> RunId)
    requires P.CreatedOnce(log) && NamesApart(name)
    ensures PublishedRuns(Published(Rows(log, name))) == RunsOf(log, name)
    ensures OncePerRun(Published(Rows(log, name)))
    decreases |log|
  {
    if log != [] {
      var before, e := log[..|log| - 1], log[|log| - 1];
      assert log == before + [e];
      PublishedRows(before, name);
      RowsAppend(before, e, name);
      var earlier, all := Published(Rows(before, name)), Published(Rows(log, name));
      assert RunsOf(log, name) == RunsOf(before, name) + if e.Created? then {name(e.run)} else {};
      if e.Created? {
        var p := Publication(name(e.run), |log|);
        assert all == earlier + [p];
        assert PublishedRuns(all) == PublishedRuns(earlier) + {p.run};
        forall i | 0 <= i < |earlier| ensures earlier[i].run != p.run {
          assert earlier[i].run in PublishedRuns(earlier);
          var old_ :| old_ in before && old_.Created? && name(old_.run) == earlier[i].run;
        }
      }
    }
  }

  lemma {:induction false} LogHasProvenance(log: seq<P.Entry>, name: P.Run -> RunId)
    requires P.CreatedOnce(log) && NamesApart(name)
    ensures Provenance(TableOf(log, name))
  {
    PublishedRows(log, name);
    forall e | e in Rows(log, name)
      ensures e.seq_ > 0 && (e.marker.Some? ==> e.marker.value.valid && !e.marker.value.process)
    {
      var i :| 0 <= i < |log| && Rows(log, name)[i] == e;
      assert e == Row(i, log[i], name);
    }
  }

  /** In a log without the candidate, the protocol lets it publish exactly when
      the check inside the creating transaction accepts it. */
  lemma {:induction false} MayPublishIsAfterCreation(s: P.State, k: nat, name: P.Run -> RunId, file: FileIdentity)
    requires k < |s.launches| && NamesApart(name) && P.CreatedOnce(s.log) && !P.Has(s.log, P.Candidate(k))
    requires s.launches[k].watermark <= s.launches[k].learned
    ensures var l := s.launches[k];
      P.MayPublish(s, k) <==>
        PublishesFirst(FromChecked(l.watermark, Complete(file, l.learned)),
          TableOf(s.log + [P.Created(P.Candidate(k))], name), file, name(P.Candidate(k)))
  {
    var l := s.launches[k];
    var longer := s.log + [P.Created(P.Candidate(k))];
    P.AppendKeepsLog(s, P.Created(P.Candidate(k)));
    LogHasProvenance(longer, name);
    CheckedUndoesFromChecked(l.watermark, Complete(file, l.learned));
    FirstCreatedIsFirstAfter(longer, name, l.watermark);
    RowsAppend(s.log, P.Created(P.Candidate(k)), name);
    assert Maximum(Rows(longer, name)) == |longer|;
    assert forall i :: 0 <= i < |s.log| ==> longer[i] == s.log[i] && s.log[i] in s.log;
  }
}
