/** One save into the path of a replacement, at any moment of it: when the saved
    version is lost, and where it is otherwise. */
module Saves {
  import opened Wrappers
  import opened Files
  import opened Replacing

  /** Before its step `n` from here on the outside saves this over the path, and
      it does nothing else. */
  ghost predicate OneSave(script: seq<Beat>, n: nat, p: Path, entry: Entry) {
    && p.Target? && n < |script|
    && forall i :: 0 <= i < |script| ==> OnlySaves(script[i], if i == n then map[p.name := Some(entry)] else map[])
  }

  predicate OnlySaves(beat: Beat, edits: map<string, Option<Entry>>) {
    beat.edits == edits && !beat.fails && !beat.interrupted
  }

  /** The file and the bytes of the snapshot, saved once more. */
  predicate Repeats(entry: Entry, s: Snapshot) {
    entry == Regular(s.inode, s.bytes)
  }

  /** The save happens now, or is still to come. */
  lemma {:induction false} MovedOneSave(d: Disk, n: nat, p: Path, entry: Entry)
    requires OneSave(d.script, n, p, entry)
    ensures !Next(d.script).fails
    ensures n == 0 ==>
      Moved(d).files == d.files[p := Version(entry, p, d.clock)] && Smooth(Moved(d).script)
    ensures n > 0 ==> Moved(d).files == d.files && OneSave(Moved(d).script, n - 1, p, entry)
  {
    assert OnlySaves(d.script[0], if 0 == n then map[p.name := Some(entry)] else map[]);
    var after := Moved(d).files;
    if n == 0 {
      var saved := d.files[p := Version(entry, p, d.clock)];
      assert after.Keys == saved.Keys;
      forall q | q in after ensures after[q] == saved[q] { assert q.Target? && q.name == p.name ==> q == p; }
    }
  }

  /** What an attempt comes to, by the step before which the save happens. Before
      the exchange it is noticed unless it repeats the original; after it, unless
      it repeats the candidate. */
  ghost predicate AttemptSaved(
      d: Disk, n: nat, destination: Path, staged: Path, original: Snapshot, candidate: Snapshot, entry: Entry, t: Tried)
  {
    var v := Version(entry, destination, d.clock + n);
    && staged in t.disk.files && destination in t.disk.files
    && if n <= 1 then
         && Smooth(t.disk.script) && t.disk.clock > v.stamp
         && (t.ok <==> Repeats(entry, original))
         && (t.exchanged <==> n == 1 || t.ok)
         && (if t.exchanged then t.disk.files[staged] == v && Holds(t.disk.files, destination, candidate)
             else t.disk.files[destination] == v)
       else if n <= 3 then
         && Smooth(t.disk.script) && t.disk.clock > v.stamp
         && (t.ok <==> Repeats(entry, candidate)) && t.exchanged
         && t.disk.files[destination] == v && Holds(t.disk.files, staged, original)
         && t.disk.files[staged].stamp < d.clock
       else
         && OneSave(t.disk.script, n - 4, destination, entry) && t.disk.clock == d.clock + 4
         && t.ok && t.exchanged && t.disk.files[staged].stamp < d.clock
  }

  lemma {:induction false} SaveInAttempt(
      d: Disk, n: nat, destination: Path, staged: Path, original: Snapshot, candidate: Snapshot, entry: Entry)
    requires InPlace(d.files, destination, staged, original, candidate)
    requires OneSave(d.script, n, destination, entry)
    requires d.files[destination].stamp < d.clock && d.files[staged].stamp < d.clock
    ensures AttemptSaved(d, n, destination, staged, original, candidate, entry,
                         Attempt(d, destination, staged, original, candidate))
  {
    hide Edited, Smooth, OneSave;
    MovedOneSave(d, n, destination, entry);
    var seen := Moved(d);
    Onward(seen, n - 1, destination, entry);
    var met := Moved(seen);
    Onward(met, n - 2, destination, entry);
    var traded := met.(files := Traded(met.files, staged, destination));
    assert Moved(traded).script == Moved(met).script;
    Onward(traded, n - 2, destination, entry);
    var checked := Moved(traded);
    Onward(checked, n - 3, destination, entry);
  }

  /** The next move, after the save or before it. */
  lemma {:induction false} Onward(d: Disk, n: int, p: Path, entry: Entry)
    requires if n < 0 then Smooth(d.script) else OneSave(d.script, n, p, entry)
    ensures !Next(d.script).fails && Moved(d).clock == d.clock + 1
    ensures if n <= 0 then Smooth(Moved(d).script) else OneSave(Moved(d).script, n - 1, p, entry)
    ensures Moved(d).files == if n == 0 then d.files[p := Version(entry, p, d.clock)] else d.files
  {
    if n < 0 { MovedSmooth(d); } else { MovedOneSave(d, n, p, entry); }
  }

  /** What a reversal comes to: before the exchange the save is noticed unless it
      repeats the candidate, and later it has the path for itself. */
  ghost predicate ReversalSaved(
      d: Disk, n: nat, destination: Path, staged: Path, candidate: Snapshot, entry: Entry, t: Tried)
  {
    var v := Version(entry, destination, d.clock + n);
    && staged in t.disk.files && destination in t.disk.files
    && (t.ok <==> n > 1 || Repeats(entry, candidate)) && (t.exchanged <==> n > 0 || t.ok)
    && (n <= 2 ==> Smooth(t.disk.script) && t.disk.clock > v.stamp)
    && (n > 2 ==> OneSave(t.disk.script, n - 3, destination, entry) && t.disk.clock == d.clock + 3)
    && (n <= 1 && t.exchanged ==> t.disk.files[staged] == v)
    && (n <= 2 && (n == 2 || !t.exchanged) ==> t.disk.files[destination] == v)
    && (n > 1 ==> t.disk.files[staged].stamp < d.clock)
  }

  lemma {:induction false} SaveInReversal(
      d: Disk, n: nat, destination: Path, staged: Path, candidate: Snapshot, entry: Entry)
    requires destination.Target? && staged.Staging? && Holds(d.files, destination, candidate) && staged in d.files
    requires OneSave(d.script, n, destination, entry)
    requires d.files[destination].stamp < d.clock && d.files[staged].stamp < d.clock
    ensures ReversalSaved(d, n, destination, staged, candidate, entry, Reversal(d, destination, staged, candidate))
  {
    hide Edited, Smooth, OneSave;
    Onward(d, n, destination, entry);
    var seen := Moved(d);
    Onward(seen, n - 1, destination, entry);
    var met := Moved(seen);
    var traded := met.(files := Traded(met.files, staged, destination));
    assert Moved(traded).script == Moved(met).script;
    Onward(traded, n - 2, destination, entry);
  }

  /** After an attempt that failed although the names traded: the reversal. */
  lemma {:induction false} SmoothReversalEnds(d: Disk, destination: Path, staged: Path, candidate: Snapshot)
    requires Smooth(d.script) && destination in d.files && staged in d.files
    ensures var t := Reversal(d, destination, staged, candidate);
      && Smooth(t.disk.script) && t.disk.clock > d.clock
      && (t.ok <==> t.exchanged) && (t.ok <==> Holds(d.files, destination, candidate))
      && t.disk.files == if t.ok then Traded(d.files, staged, destination) else d.files
  {
    hide Edited, Smooth;
    MovedSmooth(d);
    var seen := Moved(d);
    MovedSmooth(seen);
    MovedSmooth(Moved(seen).(files := Traded(seen.files, staged, destination)));
  }

  predicate Stands(files: Tree, p: Path, v: Version) {
    p in files && files[p] == v
  }

  /** What becomes of a version, seen from the place it was saved over. */
  ghost predicate LostIff(world: World, v: Version, lost: bool)
    reads world
  {
    && (v in world.removed <==> lost)
    && (lost ==> v in world.placed && v !in world.overwritten && v !in world.files.Values)
  }

  lemma {:induction false} OfItsTime(world: World, p: Path)
    requires world.Valid() && p in world.files
    ensures world.files[p].stamp < world.clock && world.files[p] in world.placed
    ensures world.files[p] !in world.overwritten && world.files[p] !in world.removed
  {
    assert world.files[p] in world.files.Values;
  }

  lemma {:induction false} NotYet(world: World, v: Version)
    requires world.Valid() && world.clock <= v.stamp
    ensures v !in world.placed && v !in world.overwritten && v !in world.removed
  {
  }

  /** Where the saved version is once no more is to be done but to drop the
      temporary file, and where the save is still to come. */
  ghost predicate Faced(now: Disk, p: Path, staged: Path, v: Version, left: int, taken: bool) {
    && staged in now.files && p.Target? && staged.Staging?
    && (if left < 0 then Smooth(now.script) && v.stamp < now.clock
        else OneSave(now.script, left, p, v.entry) && v.stamp == now.clock + left)
    && (left < 0 ==> Stands(now.files, if taken then staged else p, v))
    && (taken ==> left < 0)
  }

  /** The temporary file is dropped: the saved version goes only if it is there. */
  method Drop(world: World, r: Replacement, ghost v: Version, ghost left: int, ghost taken: bool)
    requires world.Valid() && v !in world.removed && v.home == r.destination
    requires Faced(world.Now(), r.destination, r.staged, v, left, taken)
    modifies world
    ensures LostIff(world, v, taken)
    ensures if left > 0 then v !in world.placed else !taken ==> Stands(world.files, r.destination, v)
  {
    hide Edited, Moved, Next, Smooth, OneSave;
    if left < 0 { OfItsTime(world, if taken then r.staged else r.destination); }
    Onward(world.Now(), left, r.destination, v.entry);
    world.Unlink(r.staged);
    if left > 0 { NotYet(world, v); } else if !taken { OfItsTime(world, r.destination); }
  }

  method Face(world: World, r: Replacement, n: nat, entry: Entry) returns (undone: bool)
    requires world.Valid() && r.Sound(world.files) && !r.applied && !r.keep
    requires InPlace(world.files, r.destination, r.staged, r.original, r.candidate)
    requires OneSave(world.script, n, r.destination, entry)
    modifies world, r
    ensures world.Kept() && world.removed == old(world.removed) && (undone <==> !r.keep)
    ensures var v := Version(entry, r.destination, old(world.clock) + n);
      Faced(world.Now(), r.destination, r.staged, v,
            if n <= 3 then -1 else n - 4, n <= 1 && Repeats(entry, r.original))
    ensures n > 3 || (n <= 1 && Repeats(entry, r.original)) ==> undone
  {
    hide OneSave, Smooth, Edited, Moved, Next, Attempt, Reversal, World.Valid;
    ghost var d := world.Now();
    OfItsTime(world, r.destination);
    OfItsTime(world, r.staged);
    SaveInAttempt(d, n, r.destination, r.staged, r.original, r.candidate, entry);
    var tried := r.TryApply(world);
    undone := true;
    if tried.Err? && r.applied {
      SmoothReversalEnds(world.Now(), r.destination, r.staged, r.candidate);
      undone := r.TryUndo(world);
    }
  }

  /** A save while one replacement is tried, rolled back if it must be, and its
      temporary file dropped: whatever the moment, the saved version is lost
      exactly when it comes before the exchange and repeats, file and bytes, the
      original; otherwise it stands at its path in the end. */
  method SaveDuringReplacement(world: World, r: Replacement, n: nat, entry: Entry)
    requires world.Valid() && r.Sound(world.files) && !r.applied && !r.keep
    requires InPlace(world.files, r.destination, r.staged, r.original, r.candidate)
    requires OneSave(world.script, n, r.destination, entry)
    modifies world, r
    ensures var v := Version(entry, r.destination, old(world.clock) + n);
      && LostIff(world, v, n <= 1 && Repeats(entry, r.original))
      && (n <= 4 && v !in world.removed ==> Stands(world.files, r.destination, v))
      && (n > 4 ==> v !in world.placed)
  {
    hide OneSave, Smooth, Edited, Moved, Next, World.Valid;
    ghost var v := Version(entry, r.destination, world.clock + n);
    NotYet(world, v);
    var undone := Face(world, r, n, entry);
    if undone { Drop(world, r, v, if n <= 3 then -1 else n - 4, n <= 1 && Repeats(entry, r.original)); }
  }

  method FaceRollback(world: World, r: Replacement, n: nat, entry: Entry) returns (undone: bool)
    requires world.Valid() && r.Sound(world.files) && r.applied && !r.keep
    requires Holds(world.files, r.destination, r.candidate)
    requires OneSave(world.script, n, r.destination, entry)
    modifies world, r
    ensures world.Kept() && world.removed == old(world.removed) && (undone <==> !r.keep)
    ensures var v, left := Version(entry, r.destination, old(world.clock) + n), if n <= 2 then -1 else n - 3;
      Faced(world.Now(), r.destination, r.staged, v, left, n == 1 || (n == 0 && Repeats(entry, r.candidate)))
    ensures undone <==> n > 1 || Repeats(entry, r.candidate)
  {
    hide OneSave, Smooth, Edited, Moved, Next, Reversal, World.Valid;
    OfItsTime(world, r.destination);
    OfItsTime(world, r.staged);
    SaveInReversal(world.Now(), n, r.destination, r.staged, r.candidate, entry);
    undone := r.TryUndo(world);
  }

  /** The same while one replacement is rolled back: the saved version is lost
      exactly when it comes before the exchange and repeats the candidate;
      otherwise it stands at its path, or in the temporary file, which is kept. */
  method SaveDuringRollback(world: World, r: Replacement, n: nat, entry: Entry)
    requires world.Valid() && r.Sound(world.files) && r.applied && !r.keep
    requires Holds(world.files, r.destination, r.candidate)
    requires OneSave(world.script, n, r.destination, entry)
    modifies world, r
    ensures var v := Version(entry, r.destination, old(world.clock) + n);
      && LostIff(world, v, n <= 1 && Repeats(entry, r.candidate))
      && (n <= 3 && v !in world.removed ==> Stands(world.files, if n == 1 then r.staged else r.destination, v))
      && (n == 1 && v !in world.removed ==> r.keep)
      && (n > 3 ==> v !in world.placed)
  {
    hide OneSave, Smooth, Edited, Moved, Next, World.Valid;
    ghost var v := Version(entry, r.destination, world.clock + n);
    NotYet(world, v);
    var undone := FaceRollback(world, r, n, entry);
    ghost var left := if n <= 2 then -1 else n - 3;
    if undone { Drop(world, r, v, left, n == 1 || (n == 0 && Repeats(entry, r.candidate))); }
  }
}
