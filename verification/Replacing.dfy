/** Replacing one project file with checked rollback while an editor writes the
    same path (nix/install/upgrade-helper/src/main.rs). */
module Replacing {
  import opened Wrappers
  import opened Files

  datatype Failure = Conflict | Operation | Interrupted | Rollback(kept: seq<Path>)

  /** A staged file and its target hold only what began at one of the two. */
  predicate Paired(files: Tree, staged: Path, destination: Path) {
    && destination.Target? && staged.Staging?
    && staged in files && files[staged].home in {destination, staged}
    && (destination in files ==> files[destination].home in {destination, staged})
  }

  lemma {:induction false} EditsKeepPair(before: Tree, after: Tree, beside: set<Path>, staged: Path, destination: Path)
    requires OnlyEdited(before, after, beside) && Paired(before, staged, destination)
    requires staged !in beside && destination !in beside
    ensures Paired(after, staged, destination) && after[staged] == before[staged]
  {
    assert EditedAt(before, after, staged) && EditedAt(before, after, destination);
  }

  // ---- What an attempt and its reversal come to ----

  function Traded(files: Tree, a: Path, b: Path): Tree
    requires a in files && b in files
  {
    files[b := files[a]][a := files[b]]
  }

  /** The disk afterwards, whether it went well, and whether the names traded. */
  datatype Tried = Tried(disk: Disk, ok: bool, exchanged: bool)

  /** Checking the destination, trading it with the staged file, checking both. */
  function Attempt(d: Disk, destination: Path, staged: Path, original: Snapshot, candidate: Snapshot): Tried {
    var seen := Moved(d);
    if Next(d.script).fails || !Holds(seen.files, destination, original) then Tried(seen, false, false)
    else
      var met := Moved(seen);
      if Next(seen.script).fails || destination !in met.files || staged !in met.files then Tried(met, false, false)
      else
        var traded := met.(files := Traded(met.files, staged, destination));
        var checked := Moved(traded);
        if Next(met.script).fails || !Holds(checked.files, staged, original) then Tried(checked, false, true)
        else
          var end := Moved(checked);
          Tried(end, !Next(checked.script).fails && Holds(end.files, destination, candidate), true)
  }

  /** Checking the destination still holds the candidate, trading back, checking
      that it was the candidate that came back. */
  function Reversal(d: Disk, destination: Path, staged: Path, candidate: Snapshot): Tried {
    var seen := Moved(d);
    if Next(d.script).fails || !Holds(seen.files, destination, candidate) then Tried(seen, false, false)
    else
      var met := Moved(seen);
      if Next(seen.script).fails || destination !in met.files || staged !in met.files then Tried(met, false, false)
      else
        var end := Moved(met.(files := Traded(met.files, staged, destination)));
        Tried(end, !Next(met.script).fails && Holds(end.files, staged, candidate), true)
  }

  lemma {:induction false} MovedOnlyEdits(a: Tree, d: Disk, beside: set<Path>)
    requires OnlyEdited(a, d.files, beside)
    ensures OnlyEdited(a, Moved(d).files, beside)
  {
    forall p | p !in beside ensures EditedAt(a, Moved(d).files, p) {
      assert EditedAt(a, d.files, p) && EditedAt(d.files, Moved(d).files, p);
    }
  }

  lemma {:induction false} TradedOnlyThere(a: Tree, b: Tree, x: Path, y: Path)
    requires OnlyEdited(a, b, {x, y}) && x in b && y in b
    ensures OnlyEdited(a, Traded(b, x, y), {x, y})
  {
    forall p | p !in {x, y} ensures EditedAt(a, Traded(b, x, y), p) { assert EditedAt(a, b, p); }
  }

  /** An attempt works on its two paths only. */
  lemma {:induction false} AttemptOnlyThere(
      d: Disk, destination: Path, staged: Path, original: Snapshot, candidate: Snapshot)
    ensures OnlyEdited(d.files, Attempt(d, destination, staged, original, candidate).disk.files, {destination, staged})
  {
    var both := {destination, staged};
    MovedOnlyEdits(d.files, d, both);
    var met := Moved(Moved(d));
    MovedOnlyEdits(d.files, Moved(d), both);
    if destination in met.files && staged in met.files {
      var traded := met.(files := Traded(met.files, staged, destination));
      assert {staged, destination} == both;
      TradedOnlyThere(d.files, met.files, staged, destination);
      MovedOnlyEdits(d.files, traded, both);
      MovedOnlyEdits(d.files, Moved(traded), both);
    }
  }

  lemma {:induction false} ReversalOnlyThere(d: Disk, destination: Path, staged: Path, candidate: Snapshot)
    ensures OnlyEdited(d.files, Reversal(d, destination, staged, candidate).disk.files, {destination, staged})
  {
    var both := {destination, staged};
    MovedOnlyEdits(d.files, d, both);
    var met := Moved(Moved(d));
    MovedOnlyEdits(d.files, Moved(d), both);
    if destination in met.files && staged in met.files {
      assert {staged, destination} == both;
      TradedOnlyThere(d.files, met.files, staged, destination);
      MovedOnlyEdits(d.files, met.(files := Traded(met.files, staged, destination)), both);
    }
  }

  lemma {:induction false} MovedQuiet(d: Disk)
    requires Quiet(d.script)
    ensures Moved(d).files == d.files && Quiet(Moved(d).script)
  {
    if d.script != [] { assert d.script[0] in d.script; }
  }

  ghost predicate JustTraded(before: Tree, t: Tried, destination: Path, staged: Path) {
    if t.exchanged then
      destination in before && staged in before && t.disk.files == Traded(before, staged, destination)
    else
      t.disk.files == before
  }

  /** With no editor the two paths trade what they held, or nothing changes; a
      successful attempt leaves the original in the staged file. */
  lemma {:induction false} QuietAttempt(
      d: Disk, destination: Path, staged: Path, original: Snapshot, candidate: Snapshot)
    requires destination.Target? && staged.Staging?
    ensures var t := Attempt(d, destination, staged, original, candidate);
      && (Quiet(d.script) ==> JustTraded(d.files, t, destination, staged))
      && (t.ok ==> t.exchanged && Holds(t.disk.files, staged, original))
  {
    var met := Moved(Moved(d));
    if destination in met.files && staged in met.files {
      var traded := met.(files := Traded(met.files, staged, destination));
      var checked := Moved(traded);
      assert EditedAt(checked.files, Moved(checked).files, staged);
      if Quiet(d.script) {
        MovedQuiet(traded);
        MovedQuiet(checked);
      }
    }
    if Quiet(d.script) {
      MovedQuiet(d);
      MovedQuiet(Moved(d));
    }
  }

  lemma {:induction false} QuietReversal(d: Disk, destination: Path, staged: Path, candidate: Snapshot)
    ensures var t := Reversal(d, destination, staged, candidate);
      && (Quiet(d.script) ==> JustTraded(d.files, t, destination, staged))
      && (t.ok ==> t.exchanged && Holds(t.disk.files, staged, candidate))
  {
    var met := Moved(Moved(d));
    if Quiet(d.script) {
      MovedQuiet(d);
      MovedQuiet(Moved(d));
      if destination in met.files && staged in met.files {
        MovedQuiet(met.(files := Traded(met.files, staged, destination)));
      }
    }
  }

  /** The two paths before a replacement, as the helper knows them. */
  predicate InPlace(files: Tree, destination: Path, staged: Path, original: Snapshot, candidate: Snapshot) {
    destination.Target? && staged.Staging? && Holds(files, destination, original) && Holds(files, staged, candidate)
  }

  /** When nothing happens, a replacement as it should be succeeds. */
  lemma {:induction false} SmoothAttempt(
      d: Disk, destination: Path, staged: Path, original: Snapshot, candidate: Snapshot)
    ensures Smooth(d.script) && InPlace(d.files, destination, staged, original, candidate) ==>
      Attempt(d, destination, staged, original, candidate).ok
  {
    if Smooth(d.script) && InPlace(d.files, destination, staged, original, candidate) {
      MovedSmooth(d);
      var met := Moved(Moved(d));
      MovedSmooth(Moved(d));
      var traded := met.(files := Traded(met.files, staged, destination));
      MovedSmooth(traded);
      MovedSmooth(Moved(traded));
    }
  }

  lemma {:induction false} SmoothReversal(d: Disk, destination: Path, staged: Path, candidate: Snapshot)
    ensures Smooth(d.script) && Holds(d.files, destination, candidate) && staged in d.files ==>
      Reversal(d, destination, staged, candidate).ok
  {
    if Smooth(d.script) && Holds(d.files, destination, candidate) && staged in d.files {
      MovedSmooth(d);
      var met := Moved(Moved(d));
      MovedSmooth(Moved(d));
      MovedSmooth(met.(files := Traded(met.files, staged, destination)));
    }
  }

  class Replacement {
    const destination: Path
    const original: Snapshot
    const candidate: Snapshot
    const staged: Path
    var keep: bool
    var applied: bool
    /** What the last exchange took off the destination. */
    ghost var displaced: Option<Version>

    constructor (destination: Path, original: Snapshot, candidate: Snapshot, staged: Path)
      ensures this.destination == destination && this.original == original
      ensures this.candidate == candidate && this.staged == staged
      ensures !keep && !applied && displaced == None
    {
      this.destination, this.original, this.candidate, this.staged := destination, original, candidate, staged;
      keep, applied, displaced := false, false, None;
    }

    function Paths(): set<Path> {
      {destination, staged}
    }

    /** The staged file is the helper's own or what an exchange took off the
        destination; one that a rollback would unlink is the candidate. */
    ghost predicate Sound(files: Tree)
      reads this
    {
      && Paired(files, staged, destination)
      && (match displaced case None => !applied && files[staged].home == staged case Some(v) => files[staged] == v)
      && (!applied && !keep ==> Holds(files, staged, candidate))
    }

    /** Where things are when nobody edits and nothing had to be kept. */
    ghost predicate Calm(files: Tree, start: Tree)
      reads this
    {
      && Holds(start, destination, original) && destination in files && staged in files && !keep
      && if applied
         then Holds(files, destination, candidate) && files[staged] == start[destination]
         else files[destination] == start[destination] && Holds(files, staged, candidate)
    }

    method Check(world: World, p: Path, s: Snapshot) returns (same: bool)
      requires world.Valid() && Paired(world.files, staged, destination)
      modifies world
      ensures world.Watched() && Paired(world.files, staged, destination)
      ensures world.Now() == old(Moved(world.Now()))
      ensures world.files[staged] == old(world.files)[staged]
      ensures same <==> !Next(old(world.script)).fails && Holds(world.files, p, s)
      ensures Smooth(old(world.script)) ==> (same <==> Holds(world.files, p, s))
    {
      same := world.Unchanged(p, s);
      EditsKeepPair(old(world.files), world.files, {}, staged, destination);
    }

    /** The exchange; `met` is what the outside left to it. */
    method Swap(world: World) returns (ok: bool, ghost met: Tree)
      requires world.Valid() && Paired(world.files, staged, destination)
      modifies world
      ensures world.Kept() && world.removed == old(world.removed) && Paired(world.files, staged, destination)
      ensures met == old(world.Met()) && world.Now() == old(Moved(world.Now())).(files := world.files)
      ensures OnlyEdited(old(world.files), world.files, Paths())
      ensures staged in met && met[staged] == old(world.files)[staged]
      ensures ok <==> !Next(old(world.script)).fails && destination in met
      ensures ok ==> world.files == Traded(met, staged, destination)
      ensures !ok ==> world.files == met
      ensures Quiet(old(world.script)) || Smooth(old(world.script)) ==> met == old(world.files)
      ensures Smooth(old(world.script)) ==> (ok <==> destination in met)
    {
      hide Edited, Next, Rest, Smooth, Quiet, Injective;
      ok, met := world.Exchange(staged, destination);
      EditsKeepPair(old(world.files), met, {}, staged, destination);
    }

    /** One attempt: what the disk comes to, whatever happens in between. */
    method TryApply(world: World) returns (r: Result<(), Failure>)
      requires world.Valid() && Sound(world.files) && !applied && !keep
      modifies this, world
      ensures world.Kept() && world.removed == old(world.removed)
      ensures Sound(world.files) && !keep
      ensures var t := old(Attempt(world.Now(), destination, staged, original, candidate));
        world.Now() == t.disk && r.Ok? == t.ok && applied == t.exchanged
      ensures r.Err? ==> r.error == Conflict || r.error == Operation
    {
      hide Edited, Next, Rest, Smooth, Quiet, World.Valid, OnlyEdited, Reversal, Moved;
      var found := Check(world, destination, original);
      if !found { return Err(Conflict); }
      var ok, met := Swap(world);
      if !ok { return Err(Operation); }
      applied, displaced := true, Some(met[destination]);
      var taken := Check(world, staged, original);
      if !taken { return Err(Conflict); }
      var placed := Check(world, destination, candidate);
      if !placed { return Err(Conflict); }
      return Ok(());
    }

    /** Applying one replacement. */
    method Apply(world: World, ghost start: Tree) returns (r: Result<(), Failure>)
      requires world.Valid() && Sound(world.files) && !applied && !keep
      modifies this, world
      ensures world.Kept() && world.removed == old(world.removed)
      ensures OnlyEdited(old(world.files), world.files, Paths())
      ensures var t := old(Attempt(world.Now(), destination, staged, original, candidate));
        world.Now() == t.disk && r.Ok? == t.ok
      ensures Sound(world.files) && !keep
      ensures r.Ok? ==> applied && Holds(world.files, staged, original)
      ensures r.Err? ==> r.error == Conflict || r.error == Operation
      ensures Quiet(old(world.script)) ==> Unmoved(old(world.files), world.files, Paths())
      ensures Quiet(old(world.script)) && old(Calm(world.files, start)) ==> Calm(world.files, start)
      ensures Smooth(old(world.script)) && old(Calm(world.files, start)) ==> r.Ok?
    {
      AttemptOnlyThere(world.Now(), destination, staged, original, candidate);
      QuietAttempt(world.Now(), destination, staged, original, candidate);
      SmoothAttempt(world.Now(), destination, staged, original, candidate);
      hide Edited, Next, Rest, Smooth, Quiet, World.Valid, OnlyEdited, Attempt, Moved;
      r := TryApply(world);
    }

    /** One reversal: what the disk comes to, whatever happens in between. */
    method TryUndo(world: World) returns (ok: bool)
      requires world.Valid() && Sound(world.files) && !keep && applied
      modifies this, world
      ensures world.Kept() && world.removed == old(world.removed)
      ensures Sound(world.files) && (ok <==> !keep) && (ok ==> !applied)
      ensures var t := old(Reversal(world.Now(), destination, staged, candidate));
        world.Now() == t.disk && ok == t.ok && applied == !t.exchanged
    {
      hide Edited, Next, Rest, Smooth, Quiet, World.Valid, OnlyEdited, Attempt, Moved;
      var ours := Check(world, destination, candidate);
      if !ours {
        keep := true;
        return false;
      }
      var exchanged, met := Swap(world);
      if !exchanged {
        keep := true;
        return false;
      }
      applied, displaced := false, Some(met[destination]);
      var back := Check(world, staged, candidate);
      if !back {
        keep := true;
        return false;
      }
      return true;
    }

    /** Rolling one replacement back, if there is anything to roll back. */
    method Undo(world: World, ghost start: Tree) returns (ok: bool)
      requires world.Valid() && Sound(world.files) && !keep
      modifies this, world
      ensures world.Kept() && world.removed == old(world.removed)
      ensures OnlyEdited(old(world.files), world.files, Paths())
      ensures Sound(world.files) && (ok <==> !keep) && (ok ==> !applied)
      ensures Quiet(old(world.script)) ==> Unmoved(old(world.files), world.files, Paths())
      ensures Quiet(old(world.script)) && old(Calm(world.files, start)) && ok ==> Calm(world.files, start)
      ensures Smooth(old(world.script)) && old(Calm(world.files, start)) ==> ok
    {
      if !applied { return true; }
      ReversalOnlyThere(world.Now(), destination, staged, candidate);
      QuietReversal(world.Now(), destination, staged, candidate);
      SmoothReversal(world.Now(), destination, staged, candidate);
      hide Edited, Next, Rest, Smooth, Quiet, World.Valid, OnlyEdited, Reversal, Moved;
      ok := TryUndo(world);
    }
  }
}
