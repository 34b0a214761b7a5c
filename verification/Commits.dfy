/** What a transaction comes to, step by step of the outside: which schedules of
    edits, failures and interrupts let it commit
    (nix/install/upgrade-helper/src/main.rs). */
module Commits {
  import opened Wrappers
  import opened Files
  import opened Replacing

  const FLAKE := Target("flake.nix")
  const LOCK := Target("flake.lock")
  const PROJECT := Target("nixfied.nix")

  /** A candidate file handed to the helper, and its content if it can be read. */
  datatype Candidate = NotGiven | Given(contents: Option<Content>)

  /** One file the caller wants replaced: the content it must have now (None:
      the file must be absent) and what should take its place. Hashes stand for contents. */
  datatype Job = Job(target: Path, wanted: Option<Content>, candidate: Candidate)

  /** The path holds a regular file of this content, or nothing if there should be none. */
  predicate Saved(files: Tree, p: Path, wanted: Option<Content>) {
    match ReadAt(files, p)
    case Err(_) => false
    case Ok(None) => wanted == None
    case Ok(Some(s)) => wanted == Some(s.bytes)
  }

  /** The project file as it is observed, through a link if it is one. */
  function ProjectIn(files: Tree): Option<Content> {
    if PROJECT !in files then None
    else match files[PROJECT].entry
      case Regular(_, bytes) => Some(bytes)
      case Special(_, resolves) => resolves
  }

  /** A path is as wanted when it is absent and should be, or a regular file of
      that content; anything else there is never as wanted. */
  lemma {:induction false} SavedMeans(files: Tree, p: Path, wanted: Option<Content>)
    ensures Saved(files, p, wanted) <==>
      if p in files then files[p].entry.Regular? && wanted == Some(files[p].entry.bytes) else wanted == None
  {
  }

  /** The project file is what a reader of its path gets, through a link or not. */
  lemma {:induction false} ProjectMeans(files: Tree)
    ensures ProjectIn(files).Some? ==>
      && PROJECT in files
      && (files[PROJECT].entry.Regular? ==> files[PROJECT].entry.bytes == ProjectIn(files).value)
      && (files[PROJECT].entry.Special? ==> files[PROJECT].entry.resolves == ProjectIn(files))
    ensures ProjectIn(files).None? ==>
      PROJECT !in files || (files[PROJECT].entry.Special? && files[PROJECT].entry.resolves == None)
  {
  }

  // ---- Moves of the outside ----

  /** The project after `n` moves of the outside. */
  function Later(d: Disk, n: nat): Disk {
    if n == 0 then d else Moved(Later(d, n - 1))
  }

  lemma {:induction false} LaterStill(d: Disk, m: nat, n: nat)
    ensures Later(Later(d, m), n) == Later(d, m + n)
  {
    hide Moved;
    if n > 0 { LaterStill(d, m, n - 1); }
  }

  lemma {:induction false} FirstMoves(d: Disk)
    ensures Later(d, 0) == d && Later(d, 1) == Moved(d) && Later(d, 2) == Moved(Later(d, 1))
    ensures Later(d, 3) == Moved(Later(d, 2)) && Later(d, 4) == Moved(Later(d, 3))
  {
    hide Moved;
    assert Later(d, 1) == Moved(Later(d, 0));
  }

  /** The next step of the helper does not fail. */
  predicate Works(d: Disk) {
    !Next(d.script).fails
  }

  /** Nor is an interrupt pending. */
  predicate Passes(d: Disk) {
    !Next(d.script).fails && !Next(d.script).interrupted
  }

  // ---- Exchanging ----

  datatype Swap = Swap(destination: Path, staged: Path, original: Snapshot, candidate: Snapshot)

  function SwapOf(r: Replacement): Swap {
    Swap(r.destination, r.staged, r.original, r.candidate)
  }

  function SwapsOf(rs: seq<Replacement>): (swaps: seq<Swap>)
    ensures |swaps| == |rs| && forall i :: 0 <= i < |rs| ==> swaps[i] == SwapOf(rs[i])
  {
    seq(|rs|, i requires 0 <= i < |rs| => SwapOf(rs[i]))
  }

  function Trying(d: Disk, w: Swap): Tried {
    Attempt(d, w.destination, w.staged, w.original, w.candidate)
  }

  /** One exchange between its pauses: no interrupt before it nor after it, and
      once more none after the lock. */
  function RoundOf(d: Disk, w: Swap): Option<Disk> {
    var t := Trying(Moved(d), w);
    if !Passes(d) || !t.ok || !Passes(t.disk) then None
    else if w.destination != LOCK then Some(Moved(t.disk))
    else if Passes(Moved(t.disk)) then Some(Moved(Moved(t.disk)))
    else None
  }

  /** The project after the first `n` exchanges, if all of them went well. */
  function Rounds(d: Disk, swaps: seq<Swap>, n: nat): Option<Disk>
    requires n <= |swaps|
  {
    if n == 0 then Some(d)
    else
      match Rounds(d, swaps, n - 1)
      case None => None
      case Some(before) => RoundOf(before, swaps[n - 1])
  }

  lemma {:induction false} RoundsEnd(d: Disk, swaps: seq<Swap>, m: nat, n: nat)
    requires m <= n <= |swaps| && Rounds(d, swaps, m) == None
    ensures Rounds(d, swaps, n) == None
  {
    hide RoundOf;
    if m < n { RoundsEnd(d, swaps, m, n - 1); }
  }

  // ---- Verifying ----

  predicate Replaces(swaps: seq<Swap>, p: Path) {
    exists w <- swaps :: w.destination == p
  }

  /** How many of the jobs from `j` on have no replacement, and are read again. */
  function ReadAgain(swaps: seq<Swap>, jobs: seq<Job>, j: nat): nat
    decreases |jobs| - j
  {
    if j >= |jobs| then 0
    else ReadAgain(swaps, jobs, j + 1) + if Replaces(swaps, jobs[j].target) then 0 else 1
  }

  /** After the last exchange come these moves, in this order: one at which no
      interrupt is pending; for each replacement one at which its path holds the
      candidate; for each job without one, the last first, one at which its path
      holds what the caller wants; and one at which the project file is as wanted. */
  ghost predicate Verified(d: Disk, swaps: seq<Swap>, jobs: seq<Job>, project: Option<Content>) {
    && Passes(d)
    && CandidatesHeld(Later(d, 1), swaps, |swaps|)
    && OthersHeld(Later(d, 1 + |swaps|), swaps, jobs, 0)
    && ProjectHeld(Later(d, 1 + |swaps| + ReadAgain(swaps, jobs, 0)), project)
  }

  ghost predicate CandidatesHeld(d: Disk, swaps: seq<Swap>, n: nat) {
    && n <= |swaps|
    && forall i :: 0 <= i < n ==>
         Works(Later(d, i)) && Holds(Later(d, i + 1).files, swaps[i].destination, swaps[i].candidate)
  }

  ghost predicate OthersHeld(d: Disk, swaps: seq<Swap>, jobs: seq<Job>, from: nat) {
    forall j :: from <= j < |jobs| && !Replaces(swaps, jobs[j].target) ==>
      JobHeld(Later(d, ReadAgain(swaps, jobs, j + 1)), jobs[j])
  }

  lemma {:induction false} NothingHeldYet(d: Disk, swaps: seq<Swap>, jobs: seq<Job>)
    ensures OthersHeld(d, swaps, jobs, |jobs|) && Later(d, ReadAgain(swaps, jobs, |jobs|)) == d
  {
  }

  lemma {:induction false} OneMoreHeld(d: Disk, swaps: seq<Swap>, jobs: seq<Job>, i: nat)
    requires i < |jobs| && OthersHeld(d, swaps, jobs, i + 1)
    ensures var here := Later(d, ReadAgain(swaps, jobs, i + 1));
      if Replaces(swaps, jobs[i].target) then
        OthersHeld(d, swaps, jobs, i) && Later(d, ReadAgain(swaps, jobs, i)) == here
      else
        && (OthersHeld(d, swaps, jobs, i) <==> JobHeld(here, jobs[i]))
        && (OthersHeld(d, swaps, jobs, 0) ==> JobHeld(here, jobs[i]))
        && Later(d, ReadAgain(swaps, jobs, i)) == Moved(here)
  {
    hide Moved, JobHeld, Replaces;
  }

  /** At the next move the path is read, and is as the caller wants it. */
  predicate JobHeld(d: Disk, job: Job) {
    Works(d) && Saved(Moved(d).files, job.target, job.wanted)
  }

  predicate ProjectHeld(d: Disk, project: Option<Content>) {
    Works(d) && ProjectIn(Moved(d).files) == project
  }

  /** The transaction commits: every exchange goes well, and all is verified after. */
  ghost predicate Committing(d: Disk, swaps: seq<Swap>, jobs: seq<Job>, project: Option<Content>) {
    var exchanged := Rounds(d, swaps, |swaps|);
    exchanged.Some? && Verified(exchanged.value, swaps, jobs, project)
  }
}
