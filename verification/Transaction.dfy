/** Several replacements as one transaction (nix/install/upgrade-helper/src/main.rs):
    exchange them in, verify, roll back what cannot stay, drop the temporary files. */
module Transaction {
  import opened Wrappers
  import opened Files
  import opened Replacing
  import opened Commits

  // ---- Reads that must find what the caller saw ----

  method Expect(world: World, p: Path, wanted: Option<Content>) returns (r: Result<Option<Snapshot>, Failure>)
    requires world.Valid()
    modifies world
    ensures world.Watched() && world.Now() == old(Moved(world.Now()))
    ensures r.Ok? ==> (r.value.Some? <==> wanted.Some?)
    ensures r.Ok? && r.value.Some? ==> Holds(world.files, p, r.value.value) && r.value.value.bytes == wanted.value
    ensures r.Ok? && r.value.None? ==> p !in world.files
    ensures r.Err? ==> r.error == Operation || r.error == Conflict
    ensures r.Ok? <==> Works(old(world.Now())) && Saved(world.files, p, wanted)
    ensures Smooth(old(world.script)) ==> (r.Ok? <==> Saved(old(world.files), p, wanted))
  {
    hide Smooth;
    var found := world.Read(p);
    if found.Err? { return Err(Operation); }
    var actual := match found.value case None => None case Some(s) => Some(s.bytes);
    if actual != wanted { return Err(Conflict); }
    return Ok(found.value);
  }

  /** The project file is only observed. */
  method ExpectProject(world: World, wanted: Option<Content>) returns (r: Result<(), Failure>)
    requires world.Valid()
    modifies world
    ensures world.Watched() && world.Now() == old(Moved(world.Now()))
    ensures r.Ok? <==> old(ProjectHeld(world.Now(), wanted))
    ensures r.Err? ==> r.error == Operation || r.error == Conflict
    ensures Smooth(old(world.script)) ==> (r.Ok? <==> ProjectIn(old(world.files)) == wanted)
  {
    var beat := world.Step();
    if beat.fails { return Err(Operation); }
    if ProjectIn(world.files) != wanted { return Err(Conflict); }
    return Ok(());
  }

  // ---- Several replacements at once ----

  function AllPaths(rs: seq<Replacement>): set<Path> {
    set r, p | r in rs && p in r.Paths() :: p
  }

  ghost predicate Distinct(rs: seq<Replacement>) {
    forall i, j :: 0 <= i < j < |rs| ==> rs[i] != rs[j] && rs[i].Paths() !! rs[j].Paths()
  }

  /** Outside these paths everything is where it was put. */
  ghost predicate AtHomeBeside(files: Tree, beside: set<Path>) {
    forall p :: p in files && p !in beside ==> files[p].home == p
  }

  ghost predicate AllSound(rs: seq<Replacement>, files: Tree)
    reads rs
  {
    && Distinct(rs)
    && AtHomeBeside(files, AllPaths(rs))
    && forall i :: 0 <= i < |rs| ==> rs[i].Sound(files)
  }

  /** As long as nobody edits, all is where the replacements say. */
  ghost predicate Peaceful(quiet: bool, rs: seq<Replacement>, world: World, start: Tree)
    reads world, rs
  {
    quiet ==>
      && Quiet(world.script)
      && Unmoved(start, world.files, AllPaths(rs))
      && forall i :: 0 <= i < |rs| ==> rs[i].Calm(world.files, start)
  }

  lemma {:induction false} SoundBeside(r: Replacement, before: Tree, after: Tree, beside: set<Path>)
    requires r.Sound(before) && OnlyEdited(before, after, beside) && r.Paths() !! beside
    ensures r.Sound(after) && after[r.staged] == before[r.staged]
  {
    EditsKeepPair(before, after, beside, r.staged, r.destination);
  }

  lemma {:induction false} CalmBeside(r: Replacement, before: Tree, after: Tree, start: Tree, beside: set<Path>)
    requires r.Calm(before, start) && r.Sound(before) && r.Paths() !! beside
    requires Unmoved(before, after, beside) && OnlyEdited(before, after, beside)
    ensures r.Calm(after, start)
  {
    assert EditedAt(before, after, r.staged) && SameAt(before, after, r.destination);
  }

  lemma {:induction false} EditsKeepHome(before: Tree, after: Tree, beside: set<Path>, all: set<Path>)
    requires OnlyEdited(before, after, beside) && beside <= all && AtHomeBeside(before, all)
    ensures AtHomeBeside(after, all)
  {
    forall p | p in after && p !in all ensures after[p].home == p { assert EditedAt(before, after, p); }
  }

  lemma {:induction false} UnmovedThen(start: Tree, before: Tree, after: Tree, beside: set<Path>, all: set<Path>)
    requires Unmoved(start, before, all) && Unmoved(before, after, beside) && beside <= all
    ensures Unmoved(start, after, all)
  {
    forall p: Path | p.Target? && p !in all ensures SameAt(start, after, p) {
      assert SameAt(start, before, p) && SameAt(before, after, p);
    }
  }

  lemma {:induction false} PathsAmong(rs: seq<Replacement>, i: nat)
    requires i < |rs|
    ensures rs[i].Paths() <= AllPaths(rs)
  {
    assert rs[i] in rs;
  }

  /** What a step between replacements leaves as it was. */
  lemma {:induction false} WatchedKeepsAll(quiet: bool, rs: seq<Replacement>, before: Tree, world: World, start: Tree)
    requires AllSound(rs, before) && OnlyEdited(before, world.files, {})
    requires quiet ==> Quiet(world.script) && world.files == before && Unmoved(start, before, AllPaths(rs))
    requires quiet ==> forall i :: 0 <= i < |rs| ==> rs[i].Calm(before, start)
    ensures AllSound(rs, world.files) && Peaceful(quiet, rs, world, start)
    ensures forall i :: 0 <= i < |rs| ==> world.files[rs[i].staged] == before[rs[i].staged]
  {
    EditsKeepHome(before, world.files, {}, AllPaths(rs));
    forall i | 0 <= i < |rs| ensures rs[i].Sound(world.files) && world.files[rs[i].staged] == before[rs[i].staged] {
      SoundBeside(rs[i], before, world.files, {});
    }
  }

  /** What working on one replacement leaves as it was. */
  lemma {:induction false} WorkKeepsOthers(
      quiet: bool, rs: seq<Replacement>, k: nat, before: Tree, world: World, start: Tree)
    requires Distinct(rs) && k < |rs| && AtHomeBeside(before, AllPaths(rs))
    requires forall i :: 0 <= i < |rs| && i != k ==> rs[i].Sound(before)
    requires OnlyEdited(before, world.files, rs[k].Paths()) && rs[k].Sound(world.files)
    requires quiet ==>
      Quiet(world.script) && Unmoved(before, world.files, rs[k].Paths()) && Unmoved(start, before, AllPaths(rs))
    requires quiet ==> forall i :: 0 <= i < |rs| && i != k ==> rs[i].Calm(before, start)
    ensures AllSound(rs, world.files)
    ensures quiet ==> Unmoved(start, world.files, AllPaths(rs))
    ensures quiet ==> forall i :: 0 <= i < |rs| && i != k ==> rs[i].Calm(world.files, start)
    ensures forall i :: 0 <= i < |rs| && i != k ==>
      rs[i].staged in before && world.files[rs[i].staged] == before[rs[i].staged]
  {
    PathsAmong(rs, k);
    EditsKeepHome(before, world.files, rs[k].Paths(), AllPaths(rs));
    forall i | 0 <= i < |rs| && i != k
      ensures rs[i].Sound(world.files) && world.files[rs[i].staged] == before[rs[i].staged]
      ensures quiet ==> rs[i].Calm(world.files, start)
    {
      SoundBeside(rs[i], before, world.files, rs[k].Paths());
      if quiet { CalmBeside(rs[i], before, world.files, start, rs[k].Paths()); }
    }
    if quiet { UnmovedThen(start, before, world.files, rs[k].Paths(), AllPaths(rs)); }
  }

  // ---- Applying, verifying, rolling back ----

  ghost predicate Applied(r: Replacement, files: Tree)
    reads r
  {
    r.applied && !r.keep && Holds(files, r.staged, r.original)
  }

  /** An interrupt noticed, or a hook that gives up. */
  method Pause(world: World) returns (r: Result<(), Failure>)
    requires world.Valid()
    modifies world
    ensures world.Watched() && world.Now() == old(Moved(world.Now()))
    ensures r.Err? ==> r.error == Interrupted || r.error == Operation
    ensures r.Ok? <==> Passes(old(world.Now()))
    ensures Smooth(old(world.script)) ==> r.Ok?
  {
    var beat := world.Step();
    if beat.interrupted { return Err(Interrupted); }
    if beat.fails { return Err(Operation); }
    return Ok(());
  }

  /** The replacements between two steps: where they stand, and how far along. */
  ghost predicate Underway(quiet: bool, rs: seq<Replacement>, world: World, start: Tree, done: nat)
    reads world, rs
  {
    && world.Valid() && done <= |rs| && AllSound(rs, world.files) && Peaceful(quiet, rs, world, start)
    && (forall i :: 0 <= i < |rs| ==> !rs[i].keep)
    && (forall i :: 0 <= i < done ==> Applied(rs[i], world.files))
  }

  method PauseAll(world: World, rs: seq<Replacement>, ghost quiet: bool, ghost start: Tree, ghost done: nat)
    returns (r: Result<(), Failure>)
    requires Underway(quiet, rs, world, start, done)
    modifies world
    ensures Underway(quiet, rs, world, start, done) && world.Kept() && world.removed == old(world.removed)
    ensures r.Err? ==> r.error == Interrupted || r.error == Operation
    ensures world.Now() == old(Moved(world.Now())) && (r.Ok? <==> Passes(old(world.Now())))
    ensures Smooth(old(world.script)) ==> r.Ok?
  {
    r := Pause(world);
    WatchedKeepsAll(quiet, rs, old(world.files), world, start);
  }

  /** One replacement worked on, the others left as they were. */
  lemma {:induction false} WorkedOn(
      quiet: bool, rs: seq<Replacement>, k: nat, before: Tree, world: World, start: Tree, done: nat)
    requires world.Valid() && Distinct(rs) && k < |rs| && k <= done <= k + 1 && AtHomeBeside(before, AllPaths(rs))
    requires forall i :: 0 <= i < |rs| && i != k ==> rs[i].Sound(before)
    requires OnlyEdited(before, world.files, rs[k].Paths()) && rs[k].Sound(world.files)
    requires quiet ==>
      Quiet(world.script) && Unmoved(before, world.files, rs[k].Paths()) && Unmoved(start, before, AllPaths(rs))
    requires quiet ==> rs[k].Calm(world.files, start)
    requires quiet ==> forall i :: 0 <= i < |rs| && i != k ==> rs[i].Calm(before, start)
    requires forall i :: 0 <= i < |rs| ==> !rs[i].keep
    requires forall i :: 0 <= i < k ==> Applied(rs[i], before)
    requires done > k ==> Applied(rs[k], world.files)
    ensures Underway(quiet, rs, world, start, done)
  {
    WorkKeepsOthers(quiet, rs, k, before, world, start);
  }

  method ApplyNext(world: World, rs: seq<Replacement>, k: nat, ghost quiet: bool, ghost start: Tree)
    returns (r: Result<(), Failure>)
    requires Underway(quiet, rs, world, start, k) && k < |rs| && !rs[k].applied
    modifies world, rs[k]
    ensures Underway(quiet, rs, world, start, if r.Ok? then k + 1 else k)
    ensures world.Kept() && world.removed == old(world.removed)
    ensures r.Err? ==> r.error == Conflict || r.error == Operation
    ensures var t := old(Trying(world.Now(), SwapOf(rs[k]))); world.Now() == t.disk && r.Ok? == t.ok
    ensures quiet && Smooth(old(world.script)) ==> r.Ok?
  {
    hide Attempt;
    ghost var before := world.files;
    r := rs[k].Apply(world, start);
    WorkedOn(quiet, rs, k, before, world, start, if r.Ok? then k + 1 else k);
  }

  lemma {:induction false} UnderwayParts(
    quiet: bool, rs: seq<Replacement>, world: World, start: Tree, done: nat)
    requires Underway(quiet, rs, world, start, done)
    ensures world.Valid() && forall i, j :: 0 <= i < j < |rs| ==> rs[i] != rs[j]
  {
  }

  /** One exchange, between the checks for an interrupt and the hooks. */
  method Round(world: World, rs: seq<Replacement>, k: nat, ghost quiet: bool, ghost start: Tree)
    returns (r: Result<(), Failure>, ghost done: nat)
    requires Underway(quiet, rs, world, start, k) && k < |rs| && !rs[k].applied
    modifies world, rs[k]
    ensures Underway(quiet, rs, world, start, done) && (r.Ok? ==> done == k + 1)
    ensures world.Kept() && world.removed == old(world.removed)
    ensures r.Err? ==> !r.error.Rollback?
    ensures old(RoundOf(world.Now(), SwapOf(rs[k]))) == if r.Ok? then Some(world.Now()) else None
    ensures quiet && Smooth(old(world.script)) ==> r.Ok?
  {
    hide Moved, Attempt, Passes, Underway;
    done := k;
    r := PauseAll(world, rs, quiet, start, done);
    if r.Err? { return; }
    r := ApplyNext(world, rs, k, quiet, start);
    if r.Err? { return; }
    done := k + 1;
    r := PauseAll(world, rs, quiet, start, done);
    if r.Err? || rs[k].destination != LOCK { return; }
    r := PauseAll(world, rs, quiet, start, done);
  }

  method ApplyAll(world: World, rs: seq<Replacement>, ghost quiet: bool, ghost start: Tree)
    returns (r: Result<(), Failure>, ghost done: nat)
    requires Underway(quiet, rs, world, start, 0) && forall i :: 0 <= i < |rs| ==> !rs[i].applied
    modifies world, rs
    ensures Underway(quiet, rs, world, start, done) && (r.Ok? ==> done == |rs|)
    ensures world.Kept() && world.removed == old(world.removed)
    ensures r.Err? ==> !r.error.Rollback?
    ensures Rounds(old(world.Now()), SwapsOf(rs), |rs|) == if r.Ok? then Some(world.Now()) else None
    ensures quiet && Smooth(old(world.script)) ==> r.Ok?
  {
    hide Smooth, Quiet, Underway, World.Valid, RoundOf, Moved;
    r, done := Ok(()), 0;
    ghost var d, swaps := world.Now(), SwapsOf(rs);
    UnderwayParts(quiet, rs, world, start, 0);
    var k := 0;
    while k < |rs| && r.Ok?
      invariant k <= |rs| && Underway(quiet, rs, world, start, done) && (r.Ok? ==> done == k)
      invariant world.Kept() && world.removed == old(world.removed)
      invariant forall i :: k <= i < |rs| ==> !rs[i].applied
      invariant r.Err? ==> !r.error.Rollback?
      invariant Rounds(d, swaps, k) == if r.Ok? then Some(world.Now()) else None
      invariant quiet && Smooth(old(world.script)) ==> r.Ok?
    {
      r, done := Round(world, rs, k, quiet, start);
      k := k + 1;
    }
    if r.Err? { RoundsEnd(d, swaps, k, |rs|); }
  }

  method CheckAll(
      world: World, p: Path, s: Snapshot, rs: seq<Replacement>, ghost quiet: bool, ghost start: Tree,
      ghost done: nat)
    returns (same: bool)
    requires Underway(quiet, rs, world, start, done)
    modifies world
    ensures Underway(quiet, rs, world, start, done) && world.Kept() && world.removed == old(world.removed)
    ensures world.Now() == old(Moved(world.Now()))
    ensures same <==> old(Works(world.Now())) && Holds(world.files, p, s)
    ensures Smooth(old(world.script)) ==> (same <==> Holds(world.files, p, s))
  {
    same := world.Unchanged(p, s);
    WatchedKeepsAll(quiet, rs, old(world.files), world, start);
  }

  method ExpectAll(world: World, job: Job, rs: seq<Replacement>, ghost quiet: bool, ghost start: Tree, ghost done: nat)
    returns (r: Result<(), Failure>)
    requires Underway(quiet, rs, world, start, done)
    modifies world
    ensures Underway(quiet, rs, world, start, done) && world.Kept() && world.removed == old(world.removed)
    ensures r.Err? ==> !r.error.Rollback?
    ensures world.Now() == old(Moved(world.Now())) && (r.Ok? <==> old(JobHeld(world.Now(), job)))
    ensures Smooth(old(world.script)) ==> (r.Ok? <==> Saved(old(world.files), job.target, job.wanted))
  {
    var found := Expect(world, job.target, job.wanted);
    WatchedKeepsAll(quiet, rs, old(world.files), world, start);
    r := if found.Ok? then Ok(()) else Err(found.error);
  }

  /** What the caller says the paths hold is so. */
  ghost predicate AsWanted(jobs: seq<Job>, project: Option<Content>, start: Tree) {
    && (forall j :: 0 <= j < |jobs| ==> jobs[j].target.Target? && Saved(start, jobs[j].target, jobs[j].wanted))
    && ProjectIn(start) == project
  }

  ghost predicate ProjectAside(rs: seq<Replacement>) {
    forall r <- rs :: r.destination != PROJECT
  }

  /** A path of the project no replacement works on is as it was at the start. */
  lemma {:induction false} UnmovedTarget(
      quiet: bool, rs: seq<Replacement>, world: World, start: Tree, done: nat, p: Path)
    requires Underway(quiet, rs, world, start, done) && quiet && p.Target?
    requires forall r <- rs :: r.destination != p
    ensures forall wanted :: Saved(start, p, wanted) <==> Saved(world.files, p, wanted)
    ensures p == PROJECT ==> ProjectIn(start) == ProjectIn(world.files)
  {
    var files := world.files;
    forall r | r in rs ensures p !in r.Paths() {
      var i :| 0 <= i < |rs| && rs[i] == r;
      assert rs[i].Sound(files);
    }
    assert SameAt(start, files, p);
  }

  method VerifyCandidates(world: World, rs: seq<Replacement>, ghost quiet: bool, ghost start: Tree)
    returns (r: Result<(), Failure>)
    requires Underway(quiet, rs, world, start, |rs|)
    modifies world
    ensures Underway(quiet, rs, world, start, |rs|) && world.Kept() && world.removed == old(world.removed)
    ensures r.Err? ==> !r.error.Rollback?
    ensures r.Ok? <==> CandidatesHeld(old(world.Now()), SwapsOf(rs), |rs|)
    ensures r.Ok? ==> world.Now() == Later(old(world.Now()), |rs|)
    ensures quiet && Smooth(old(world.script)) ==> r.Ok?
  {
    hide Smooth, Underway, World.Valid, Moved;
    ghost var d := world.Now();
    UnderwayParts(quiet, rs, world, start, |rs|);
    for i := 0 to |rs|
      invariant Underway(quiet, rs, world, start, |rs|) && world.Kept() && world.removed == old(world.removed)
      invariant world.Now() == Later(d, i) && CandidatesHeld(d, SwapsOf(rs), i)
    {
      if quiet { UnderwayHolds(rs, world, start, i); }
      var same := CheckAll(world, rs[i].destination, rs[i].candidate, rs, quiet, start, |rs|);
      assert Later(d, i + 1) == world.Now() && SwapsOf(rs)[i] == SwapOf(rs[i]);
      if !same { return Err(Conflict); }
    }
    return Ok(());
  }

  lemma {:induction false} UnderwayHolds(rs: seq<Replacement>, world: World, start: Tree, i: nat)
    requires Underway(true, rs, world, start, |rs|) && i < |rs|
    ensures Smooth(world.script) ==> Moved(world.Now()).files == world.files
    ensures Holds(world.files, rs[i].destination, rs[i].candidate)
  {
    if Smooth(world.script) { MovedSmooth(world.Now()); }
    assert rs[i].Calm(world.files, start);
  }

  method VerifyOthers(world: World, rs: seq<Replacement>, jobs: seq<Job>, ghost quiet: bool, ghost start: Tree)
    returns (r: Result<(), Failure>)
    requires Underway(quiet, rs, world, start, |rs|)
    modifies world
    ensures Underway(quiet, rs, world, start, |rs|) && world.Kept() && world.removed == old(world.removed)
    ensures r.Err? ==> !r.error.Rollback?
    ensures r.Ok? <==> OthersHeld(old(world.Now()), SwapsOf(rs), jobs, 0)
    ensures r.Ok? ==> world.Now() == Later(old(world.Now()), ReadAgain(SwapsOf(rs), jobs, 0))
    ensures quiet && Smooth(old(world.script)) && AsWanted(jobs, ProjectIn(start), start) ==> r.Ok?
  {
    hide Smooth, Quiet, Underway, Saved, ProjectIn, World.Valid, Moved, JobHeld, OthersHeld, ReadAgain, Replaces, Later;
    ghost var d, swaps := world.Now(), SwapsOf(rs);
    UnderwayParts(quiet, rs, world, start, |rs|);
    NothingHeldYet(d, swaps, jobs);
    for i := |jobs| downto 0
      invariant Underway(quiet, rs, world, start, |rs|) && world.Kept() && world.removed == old(world.removed)
      invariant world.Now() == Later(d, ReadAgain(swaps, jobs, i)) && OthersHeld(d, swaps, jobs, i)
    {
      ReplacesDestination(rs, jobs[i].target);
      OneMoreHeld(d, swaps, jobs, i);
      if forall r <- rs :: r.destination != jobs[i].target {
        if quiet && jobs[i].target.Target? { UnmovedTarget(quiet, rs, world, start, |rs|, jobs[i].target); }
        r := ExpectAll(world, jobs[i], rs, quiet, start, |rs|);
        if r.Err? { return; }
      }
    }
    return Ok(());
  }

  lemma {:induction false} ReplacesDestination(rs: seq<Replacement>, p: Path)
    ensures Replaces(SwapsOf(rs), p) <==> exists r <- rs :: r.destination == p
  {
    var swaps := SwapsOf(rs);
    if w :| w in swaps && w.destination == p {
      var i :| 0 <= i < |swaps| && swaps[i] == w;
      assert rs[i] in rs;
    }
    if r :| r in rs && r.destination == p {
      var i :| 0 <= i < |rs| && rs[i] == r;
      assert swaps[i] in swaps;
    }
  }

  method VerifyProject(
      world: World, rs: seq<Replacement>, project: Option<Content>, ghost quiet: bool, ghost start: Tree)
    returns (r: Result<(), Failure>)
    requires Underway(quiet, rs, world, start, |rs|)
    modifies world
    ensures Underway(quiet, rs, world, start, |rs|) && world.Kept() && world.removed == old(world.removed)
    ensures r.Err? ==> !r.error.Rollback?
    ensures r.Ok? <==> old(ProjectHeld(world.Now(), project))
    ensures Smooth(old(world.script)) ==> (r.Ok? <==> ProjectIn(old(world.files)) == project)
  {
    hide Smooth, Quiet, OnlyEdited, ProjectIn, ProjectHeld, Moved, World.Valid;
    r := ExpectProject(world, project);
    WatchedKeepsAll(quiet, rs, old(world.files), world, start);
  }

  /** What must still hold once every exchange is done. */
  method Verify(
      world: World, rs: seq<Replacement>, jobs: seq<Job>, project: Option<Content>, ghost quiet: bool,
      ghost start: Tree)
    returns (r: Result<(), Failure>)
    requires Underway(quiet, rs, world, start, |rs|)
    modifies world
    ensures Underway(quiet, rs, world, start, |rs|) && world.Kept() && world.removed == old(world.removed)
    ensures r.Err? ==> !r.error.Rollback?
    ensures r.Ok? <==> Verified(old(world.Now()), SwapsOf(rs), jobs, project)
    ensures quiet && Smooth(old(world.script)) && AsWanted(jobs, project, start) && ProjectAside(rs) ==> r.Ok?
  {
    hide Smooth, Underway, ProjectIn, Saved, World.Valid, Moved, CandidatesHeld, OthersHeld, ProjectHeld, Passes;
    ghost var d := world.Now();
    LaterStill(d, 1, |rs|);
    LaterStill(d, 1 + |rs|, ReadAgain(SwapsOf(rs), jobs, 0));
    assert Later(d, 1) == Moved(Later(d, 0)) == Moved(d);
    r := PauseAll(world, rs, quiet, start, |rs|);
    if r.Err? { return; }
    r := VerifyCandidates(world, rs, quiet, start);
    if r.Err? { return; }
    r := VerifyOthers(world, rs, jobs, quiet, start);
    if r.Err? { return; }
    if quiet && ProjectAside(rs) { UnmovedTarget(quiet, rs, world, start, |rs|, PROJECT); }
    r := VerifyProject(world, rs, project, quiet, start);
  }

  /** The replacements from `k` on are rolled back, or kept and named. */
  ghost predicate Undoing(quiet: bool, rs: seq<Replacement>, world: World, start: Tree, k: nat, kept: seq<Path>)
    reads world, rs
  {
    && world.Valid() && k <= |rs| && AllSound(rs, world.files)
    && (forall i :: 0 <= i < k ==> !rs[i].keep && rs[i].staged !in kept)
    && (forall i :: k <= i < |rs| ==> (rs[i].keep <==> rs[i].staged in kept) && (!rs[i].keep ==> !rs[i].applied))
    && (quiet ==> Quiet(world.script) && Unmoved(start, world.files, AllPaths(rs)))
    && (quiet ==> forall i :: 0 <= i < |rs| && !rs[i].keep ==> rs[i].Calm(world.files, start))
  }

  lemma {:induction false} StagedDistinct(rs: seq<Replacement>)
    requires Distinct(rs)
    ensures forall i, j :: 0 <= i < |rs| && 0 <= j < |rs| && i != j ==> rs[i].staged != rs[j].staged && rs[i] != rs[j]
  {
    forall i, j | 0 <= i < |rs| && 0 <= j < |rs| && i != j ensures rs[i].staged != rs[j].staged && rs[i] != rs[j] {
      var a, b := if i < j then i else j, if i < j then j else i;
      assert rs[a].Paths() !! rs[b].Paths() && rs[a].staged in rs[a].Paths() && rs[b].staged in rs[b].Paths();
    }
  }

  method UndoNext(world: World, rs: seq<Replacement>, k: nat, kept: seq<Path>, ghost quiet: bool, ghost start: Tree)
    returns (more: seq<Path>)
    requires Undoing(quiet, rs, world, start, k + 1, kept)
    modifies world, rs[k]
    ensures Undoing(quiet, rs, world, start, k, more) && world.Kept() && world.removed == old(world.removed)
  {
    StagedDistinct(rs);
    ghost var before := world.files;
    var ok := rs[k].Undo(world, start);
    KeptBeside(quiet, rs, k, before, world, start);
    more := if ok then kept else kept + [rs[k].staged];
  }

  lemma {:induction false} KeptBeside(
      quiet: bool, rs: seq<Replacement>, k: nat, before: Tree, world: World, start: Tree)
    requires Distinct(rs) && k < |rs| && AtHomeBeside(before, AllPaths(rs))
    requires forall i :: 0 <= i < |rs| && i != k ==> rs[i].Sound(before)
    requires OnlyEdited(before, world.files, rs[k].Paths()) && rs[k].Sound(world.files)
    requires quiet ==> Unmoved(before, world.files, rs[k].Paths()) && Unmoved(start, before, AllPaths(rs))
    requires quiet ==> forall i :: 0 <= i < |rs| && i != k && !rs[i].keep ==> rs[i].Calm(before, start)
    ensures AllSound(rs, world.files)
    ensures quiet ==> Unmoved(start, world.files, AllPaths(rs))
    ensures quiet ==> forall i :: 0 <= i < |rs| && i != k && !rs[i].keep ==> rs[i].Calm(world.files, start)
  {
    PathsAmong(rs, k);
    EditsKeepHome(before, world.files, rs[k].Paths(), AllPaths(rs));
    forall i | 0 <= i < |rs| && i != k
      ensures rs[i].Sound(world.files)
      ensures quiet && !rs[i].keep ==> rs[i].Calm(world.files, start)
    {
      SoundBeside(rs[i], before, world.files, rs[k].Paths());
      if quiet && !rs[i].keep { CalmBeside(rs[i], before, world.files, start, rs[k].Paths()); }
    }
    if quiet { UnmovedThen(start, before, world.files, rs[k].Paths(), AllPaths(rs)); }
  }

  /** Rolling back, last exchange first; what cannot be undone is kept and named. */
  method UndoAll(
      world: World, rs: seq<Replacement>, ghost quiet: bool, ghost start: Tree, ghost done: nat)
      returns (kept: seq<Path>)
    requires Underway(quiet, rs, world, start, done)
    modifies world, rs
    ensures Undoing(quiet, rs, world, start, 0, kept) && world.Kept() && world.removed == old(world.removed)
  {
    kept := [];
    var k: nat := |rs|;
    while k > 0
      invariant Undoing(quiet, rs, world, start, k, kept) && world.Kept() && world.removed == old(world.removed)
    {
      k := k - 1;
      kept := UndoNext(world, rs, k, kept, quiet, start);
    }
  }

  // ---- Dropping the temporary files ----

  /** What a temporary file holds when it is dropped: the displaced original
      after success, the candidate after a rollback. */
  ghost function Leftover(r: Replacement, success: bool): Snapshot {
    if success then r.original else r.candidate
  }

  /** The staged file is the helper's own, or what it took off its destination. */
  ghost predicate HoldsTaken(r: Replacement, files: Tree)
    requires r.staged in files
    reads r
  {
    match r.displaced case None => files[r.staged].home == r.staged case Some(v) => files[r.staged] == v
  }

  /** Taken off its destination and not kept: the helper lets it go. */
  ghost predicate GivenUp(r: Replacement, v: Version)
    reads r
  {
    r.displaced == Some(v) && !r.keep
  }

  /** Where everything is while the temporary files before `k` are dropped. */
  ghost predicate Dropping(rs: seq<Replacement>, files: Tree, success: bool, k: nat)
    reads rs
  {
    && k <= |rs| && Distinct(rs) && AtHomeBeside(files, AllPaths(rs))
    && (forall i :: 0 <= i < |rs| ==> rs[i].destination.Target? && rs[i].staged.Staging?)
    && (forall i, p :: 0 <= i < |rs| && p in rs[i].Paths() && p in files ==> files[p].home in rs[i].Paths())
    && (forall i :: 0 <= i < |rs| && rs[i].staged in files ==> HoldsTaken(rs[i], files))
    && (forall i, v :: 0 <= i < |rs| && GivenUp(rs[i], v) ==> IsLeftover(rs[i], v, success))
    && (forall i :: 0 <= i < |rs| && (k <= i || rs[i].keep) ==> rs[i].staged in files)
  }

  ghost predicate IsLeftover(r: Replacement, v: Version, success: bool) {
    && v.home in r.Paths()
    && v.entry == Regular(Leftover(r, success).inode, Leftover(r, success).bytes)
  }

  /** What was unlinked of what came from project paths: exactly what the
      temporary files no longer there had taken off them. */
  ghost predicate Unlinked(rs: seq<Replacement>, before: set<Version>, after: set<Version>, files: Tree)
    reads rs
  {
    && before <= after
    && (forall v <- after - before :: v.home.Target? ==>
          exists i :: 0 <= i < |rs| && rs[i].staged !in files && rs[i].displaced == Some(v))
    && (forall i :: 0 <= i < |rs| && rs[i].staged !in files && rs[i].displaced.Some? ==> rs[i].displaced.value in after)
  }

  /** No temporary file is left among the first `k` but those that were kept. */
  ghost predicate CleanedUp(rs: seq<Replacement>, files: Tree, k: nat)
    requires k <= |rs|
    reads rs
  {
    forall i :: 0 <= i < k && rs[i].staged in files ==> rs[i].keep
  }

  method DropNext(world: World, rs: seq<Replacement>, k: nat, ghost success: bool, ghost first: set<Version>)
    requires world.Valid() && Dropping(rs, world.files, success, k) && k < |rs|
    requires Unlinked(rs, first, world.removed, world.files)
    modifies world
    ensures Dropping(rs, world.files, success, k + 1) && world.Kept()
    ensures Unlinked(rs, first, world.removed, world.files)
    ensures Quiet(old(world.script)) ==> Unmoved(old(world.files), world.files, {})
    ensures Smooth(old(world.script)) && CleanedUp(rs, old(world.files), k) ==> CleanedUp(rs, world.files, k + 1)
  {
    if rs[k].keep { return; }
    hide Edited, Quiet, Smooth, Next;
    ghost var before, removed := world.files, world.removed;
    world.Unlink(rs[k].staged);
    DropKeepsOthers(rs, k, before, world.files, success);
    DropUnlinks(rs, k, first, removed, world.removed, before, world.files);
  }

  lemma {:induction false} DropKeepsOthers(rs: seq<Replacement>, k: nat, before: Tree, after: Tree, success: bool)
    requires Dropping(rs, before, success, k) && k < |rs| && !rs[k].keep
    requires OnlyEdited(before, after, {rs[k].staged})
    requires (rs[k].staged in after ==> after[rs[k].staged] == before[rs[k].staged])
    ensures Dropping(rs, after, success, k + 1)
    ensures forall i :: 0 <= i < |rs| && i != k ==> (rs[i].staged in after <==> rs[i].staged in before)
  {
    PathsAmong(rs, k);
    EditsKeepHome(before, after, {rs[k].staged}, AllPaths(rs));
    StagedDistinct(rs);
    forall i, p | 0 <= i < |rs| && p in rs[i].Paths() ensures p in after ==> after[p].home in rs[i].Paths() {
      assert p != rs[k].staged ==> EditedAt(before, after, p);
    }
    forall i | 0 <= i < |rs| && i != k ensures SameAt(before, after, rs[i].staged) {
      assert EditedAt(before, after, rs[i].staged);
    }
  }

  lemma {:induction false} DropUnlinks(
      rs: seq<Replacement>, k: nat, first: set<Version>, removed: set<Version>, later: set<Version>,
      before: Tree, after: Tree)
    requires k < |rs| && Unlinked(rs, first, removed, before) && rs[k].staged.Staging?
    requires rs[k].staged in before && HoldsTaken(rs[k], before)
    requires later == removed + if rs[k].staged in after then {} else {before[rs[k].staged]}
    requires forall i :: 0 <= i < |rs| && i != k ==> (rs[i].staged in after <==> rs[i].staged in before)
    ensures Unlinked(rs, first, later, after)
  {
    forall v | v in later - first && v.home.Target?
      ensures exists i :: 0 <= i < |rs| && rs[i].staged !in after && rs[i].displaced == Some(v)
    {
      if v in removed {
        var i :| 0 <= i < |rs| && rs[i].staged !in before && rs[i].displaced == Some(v);
        assert i != k;
      } else {
        assert rs[k].displaced == Some(v);
      }
    }
  }

  method DropAll(world: World, rs: seq<Replacement>, ghost success: bool)
    requires world.Valid() && Dropping(rs, world.files, success, 0)
    modifies world
    ensures Dropping(rs, world.files, success, |rs|) && world.Kept()
    ensures Unlinked(rs, old(world.removed), world.removed, world.files)
    ensures Quiet(old(world.script)) ==> Unmoved(old(world.files), world.files, {})
    ensures Smooth(old(world.script)) ==> CleanedUp(rs, world.files, |rs|)
  {
    hide Smooth, Quiet;
    ghost var first, start := world.removed, world.files;
    for k := 0 to |rs|
      invariant world.Kept() && Dropping(rs, world.files, success, k)
      invariant Unlinked(rs, first, world.removed, world.files)
      invariant Quiet(old(world.script)) ==> Unmoved(start, world.files, {})
      invariant Smooth(old(world.script)) ==> CleanedUp(rs, world.files, k)
    {
      ghost var before := world.files;
      DropNext(world, rs, k, success, first);
      if Quiet(old(world.script)) { UnmovedThen(start, before, world.files, {}, {}); }
    }
  }

  // ---- Committing ----

  function KeptPaths(r: Result<(), Failure>): seq<Path> {
    if r.Err? && r.error.Rollback? then r.error.kept else []
  }

  ghost predicate Committed(rs: seq<Replacement>, files: Tree, start: Tree) {
    && Unmoved(start, files, AllPaths(rs))
    && forall i :: 0 <= i < |rs| ==> Holds(files, rs[i].destination, rs[i].candidate)
  }

  ghost predicate Restored(files: Tree, start: Tree) {
    Unmoved(start, files, {})
  }

  lemma {:induction false} ReadyToDrop(rs: seq<Replacement>, files: Tree, success: bool)
    requires AllSound(rs, files)
    requires forall i :: 0 <= i < |rs| ==> if success then Applied(rs[i], files) else rs[i].keep || !rs[i].applied
    ensures Dropping(rs, files, success, 0)
  {
    forall i | 0 <= i < |rs| ensures Paired(files, rs[i].staged, rs[i].destination) { assert rs[i].Sound(files); }
  }

  lemma {:induction false} CalmTargets(rs: seq<Replacement>, files: Tree, start: Tree)
    requires Unmoved(start, files, AllPaths(rs))
    requires forall i :: 0 <= i < |rs| ==> !rs[i].applied && rs[i].staged.Staging? && rs[i].Calm(files, start)
    ensures Restored(files, start)
  {
    forall p: Path | p.Target? ensures SameAt(start, files, p) {
      if p in AllPaths(rs) {
        var r :| r in rs && p in r.Paths();
        var i :| 0 <= i < |rs| && rs[i] == r;
        assert p == r.destination && r.Calm(files, start);
      }
    }
  }

  /** After a clean run: the displaced originals are dropped. */
  method Settle(world: World, rs: seq<Replacement>, ghost quiet: bool, ghost start: Tree)
    requires Underway(quiet, rs, world, start, |rs|)
    modifies world
    ensures world.Kept() && Dropping(rs, world.files, true, |rs|)
    ensures Unlinked(rs, old(world.removed), world.removed, world.files)
    ensures Smooth(old(world.script)) ==> CleanedUp(rs, world.files, |rs|)
    ensures quiet ==> Committed(rs, world.files, start)
    ensures forall i :: 0 <= i < |rs| ==> !rs[i].keep
  {
    ReadyToDrop(rs, world.files, true);
    DropAll(world, rs, true);
    if quiet { StillCommitted(rs, old(world.files), world.files, start); }
  }

  /** After a failure: what can be undone is, and its candidates are dropped. */
  method Abandon(
      world: World, rs: seq<Replacement>, ghost quiet: bool, ghost start: Tree, ghost done: nat)
      returns (kept: seq<Path>)
    requires Underway(quiet, rs, world, start, done)
    modifies world, rs
    ensures world.Kept() && Dropping(rs, world.files, false, |rs|)
    ensures Unlinked(rs, old(world.removed), world.removed, world.files)
    ensures Smooth(old(world.script)) ==> CleanedUp(rs, world.files, |rs|)
    ensures forall i :: 0 <= i < |rs| ==> (rs[i].keep <==> rs[i].staged in kept)
    ensures quiet && kept == [] ==> Restored(world.files, start)
  {
    kept := UndoAll(world, rs, quiet, start, done);
    ReadyToDrop(rs, world.files, false);
    if kept == [] && quiet { CalmTargets(rs, world.files, start); }
    ghost var before := world.files;
    DropAll(world, rs, false);
    if kept == [] && quiet { UnmovedThen(start, before, world.files, {}, {}); }
  }

  method Commit(
      world: World, rs: seq<Replacement>, jobs: seq<Job>, project: Option<Content>, ghost quiet: bool,
      ghost start: Tree)
    returns (r: Result<(), Failure>)
    requires Underway(quiet, rs, world, start, 0) && forall i :: 0 <= i < |rs| ==> !rs[i].applied
    modifies world, rs
    ensures world.Kept() && Dropping(rs, world.files, r.Ok?, |rs|)
    ensures Unlinked(rs, old(world.removed), world.removed, world.files)
    ensures Smooth(old(world.script)) ==> CleanedUp(rs, world.files, |rs|)
    ensures forall i :: 0 <= i < |rs| ==> (rs[i].keep <==> rs[i].staged in KeptPaths(r))
    ensures r.Err? && r.error.Rollback? ==> r.error.kept != []
    ensures r.Ok? <==> Committing(old(world.Now()), SwapsOf(rs), jobs, project)
    ensures quiet && r.Ok? ==> Committed(rs, world.files, start)
    ensures quiet && r.Err? && !r.error.Rollback? ==> Restored(world.files, start)
    ensures quiet && Smooth(old(world.script)) && AsWanted(jobs, project, start) && ProjectAside(rs) ==> r.Ok?
  {
    hide Rounds, Verified;
    ghost var done;
    r, done := ApplyAll(world, rs, quiet, start);
    if r.Ok? { r := Verify(world, rs, jobs, project, quiet, start); }
    if r.Ok? {
      Settle(world, rs, quiet, start);
    } else {
      var kept := Abandon(world, rs, quiet, start, done);
      if kept != [] { r := Err(Rollback(kept)); }
    }
  }

  lemma {:induction false} StillCommitted(rs: seq<Replacement>, before: Tree, after: Tree, start: Tree)
    requires Unmoved(start, before, AllPaths(rs)) && Unmoved(before, after, {})
    requires forall i :: 0 <= i < |rs| ==>
      rs[i].applied && rs[i].Calm(before, start) && Paired(before, rs[i].staged, rs[i].destination)
    ensures Committed(rs, after, start)
  {
    UnmovedThen(start, before, after, {}, AllPaths(rs));
    forall i | 0 <= i < |rs| ensures Holds(after, rs[i].destination, rs[i].candidate) {
      assert rs[i].Calm(before, start) && SameAt(before, after, rs[i].destination);
    }
  }
}
