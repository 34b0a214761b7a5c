/** The whole upgrade (nix/install/upgrade-helper/src/main.rs, `apply`), and what
    it guarantees whatever an editor does meanwhile. */
module Upgrade {
  import opened Wrappers
  import opened Files
  import opened Replacing
  import opened Commits
  import opened Transaction

  // ---- Staging the candidates ----

  /** The project once a candidate is staged and read back, if that succeeds. */
  function StagedAt(d: Disk, p: Path, bytes: Content): Option<Disk> {
    var created := Created(d, p, bytes);
    if !Works(d) || p in Moved(d).files || !Works(created) then None else Some(Moved(created))
  }

  datatype Readied = Readied(disk: Disk, swaps: seq<Swap>)

  /** One job made ready: its candidate is read, and staged if it changes anything. */
  function Readying(d: Disk, job: Job, original: Option<Snapshot>, name: nat): Option<Readied> {
    if job.candidate.NotGiven? then Some(Readied(d, []))
    else if original.None? || !Works(d) || job.candidate.contents.None? then None
    else
      var contents := job.candidate.contents.value;
      if original.value.bytes == contents then Some(Readied(Moved(d), []))
      else
        match StagedAt(Moved(d), Staging(name), contents)
        case None => None
        case Some(staged) =>
          var candidate := Snapshot(Next(Moved(d).script).inode, contents);
          Some(Readied(staged, [Swap(job.target, Staging(name), original.value, candidate)]))
  }

  /** The first `n` jobs made ready, one after the other. */
  function ReadyingAll(d: Disk, jobs: seq<Job>, originals: seq<Option<Snapshot>>, n: nat, name: nat): Option<Readied>
    requires n <= |jobs| == |originals|
  {
    if n == 0 then Some(Readied(d, []))
    else
      match ReadyingAll(d, jobs, originals, n - 1, name)
      case None => None
      case Some(before) =>
        match Readying(before.disk, jobs[n - 1], originals[n - 1], name + n - 1)
        case None => None
        case Some(more) => Some(Readied(more.disk, before.swaps + more.swaps))
  }

  lemma {:induction false} ReadyingEnds(
    d: Disk, jobs: seq<Job>, originals: seq<Option<Snapshot>>, m: nat, n: nat, name: nat)
    requires m <= n <= |jobs| == |originals| && ReadyingAll(d, jobs, originals, m, name) == None
    ensures ReadyingAll(d, jobs, originals, n, name) == None
  {
    hide Readying;
    if m < n { ReadyingEnds(d, jobs, originals, m, n - 1, name); }
  }

  /** The replacement answers one of the first `n` jobs. */
  ghost predicate AnswersBefore(r: Replacement, jobs: seq<Job>, n: nat)
    requires n <= |jobs|
  {
    exists j :: 0 <= j < n && Answers(r, jobs[j])
  }

  ghost predicate Answers(r: Replacement, job: Job) {
    && r.destination == job.target
    && job.wanted == Some(r.original.bytes)
    && job.candidate == Given(Some(r.candidate.bytes))
  }

  /** The replacement of this job: it expects the original as it was read, and its
      candidate is a temporary file of the helper's own. */
  ghost predicate StagedFrom(r: Replacement, job: Job, original: Option<Snapshot>, placed: set<Version>) {
    && Answers(r, job) && original == Some(r.original) && r.staged.Staging?
    && exists v <- placed :: IsCandidate(r, v)
  }

  predicate IsCandidate(r: Replacement, v: Version) {
    v.home == r.staged && v.entry == Regular(r.candidate.inode, r.candidate.bytes)
  }

  ghost predicate Traced(r: Replacement, jobs: seq<Job>, originals: seq<Option<Snapshot>>, placed: set<Version>)
    requires |originals| == |jobs|
  {
    exists j :: 0 <= j < |jobs| && StagedFrom(r, jobs[j], originals[j], placed)
  }

  ghost predicate AllTraced(
    rs: seq<Replacement>, jobs: seq<Job>, originals: seq<Option<Snapshot>>, placed: set<Version>)
    requires |originals| == |jobs|
  {
    forall i :: 0 <= i < |rs| ==> Traced(rs[i], jobs, originals, placed)
  }

  lemma {:induction false} TracedSince(rs: seq<Replacement>, jobs: seq<Job>, originals: seq<Option<Snapshot>>,
    before: set<Version>, placed: set<Version>)
    requires |originals| == |jobs| && AllTraced(rs, jobs, originals, before) && before <= placed
    ensures AllTraced(rs, jobs, originals, placed)
  {
    forall i | 0 <= i < |rs| ensures Traced(rs[i], jobs, originals, placed) {
      assert Traced(rs[i], jobs, originals, before);
      var j :| 0 <= j < |jobs| && StagedFrom(rs[i], jobs[j], originals[j], before);
      assert StagedFrom(rs[i], jobs[j], originals[j], placed);
    }
  }

  lemma {:induction false} StillTraced(
    rs: seq<Replacement>, more: seq<Replacement>, jobs: seq<Job>, originals: seq<Option<Snapshot>>, k: nat,
    before: set<Version>, placed: set<Version>)
    requires |originals| == |jobs| && AllTraced(rs, jobs, originals, before) && before <= placed && rs <= more
    requires k < |jobs| && forall i :: |rs| <= i < |more| ==> StagedFrom(more[i], jobs[k], originals[k], placed)
    ensures AllTraced(more, jobs, originals, placed)
  {
    TracedSince(rs, jobs, originals, before, placed);
    forall i | 0 <= i < |more| ensures Traced(more[i], jobs, originals, placed) {
      assert i < |rs| ==> more[i] == rs[i] && Traced(rs[i], jobs, originals, placed);
    }
  }

  /** A job that needs no replacement: nothing given, or nothing to change. */
  predicate Idle(job: Job) {
    job.candidate.NotGiven? || (job.candidate.contents.Some? && job.candidate.contents == job.wanted)
  }

  /** A job that can be carried out: nothing to do, or a file to replace and a
      candidate that can be read. */
  predicate Doable(job: Job) {
    job.candidate.NotGiven? || (job.wanted.Some? && job.candidate.contents.Some?)
  }

  /** No temporary name from this one on is in use. */
  ghost predicate NamesFree(files: Tree, name: nat) {
    forall n: nat :: name <= n ==> Staging(n) !in files
  }

  ghost predicate AnsweredOrIdle(rs: seq<Replacement>, job: Job) {
    Idle(job) || exists i :: 0 <= i < |rs| && Answers(rs[i], job)
  }

  /** The candidates staged for the first `n` jobs, none exchanged yet. */
  ghost predicate Staged(
    quiet: bool, free: bool, rs: seq<Replacement>, world: World, start: Tree, jobs: seq<Job>, n: nat, name: nat)
    reads world, rs
  {
    && (free ==> NamesFree(world.files, name))
    && (forall i :: 0 <= i < |rs| ==> rs[i].staged.Staging? && rs[i].staged.n < name)
    && Underway(quiet, rs, world, start, 0) && n <= |jobs|
    && (forall i :: 0 <= i < |rs| ==> !rs[i].applied && AnswersBefore(rs[i], jobs, n))
    && (forall j :: 0 <= j < n ==> AnsweredOrIdle(rs, jobs[j]))
  }

  /** What the staged candidates say about all jobs. */
  lemma {:induction false} StagedParts(
    quiet: bool, free: bool, rs: seq<Replacement>, world: World, start: Tree, jobs: seq<Job>, n: nat, name: nat)
    requires Staged(quiet, free, rs, world, start, jobs, n, name)
    ensures world.Valid() && Underway(quiet, rs, world, start, 0) && OwnRemoved(world.removed, world.removed)
    ensures forall i :: 0 <= i < |rs| ==> !rs[i].applied && AnswersBefore(rs[i], jobs, |jobs|)
    ensures n == |jobs| ==> forall j :: 0 <= j < |jobs| ==> AnsweredOrIdle(rs, jobs[j])
  {
    forall i | 0 <= i < |rs| ensures AnswersBefore(rs[i], jobs, |jobs|) {
      var j :| 0 <= j < n && Answers(rs[i], jobs[j]);
    }
  }

  ghost predicate DistinctTargets(jobs: seq<Job>) {
    && (forall i :: 0 <= i < |jobs| ==> jobs[i].target.Target?)
    && forall i, j :: 0 <= i < j < |jobs| ==> jobs[i].target != jobs[j].target
  }

  /** What staging one candidate does to its temporary name. */
  ghost predicate OwnAt(before: Tree, after: Tree, p: Path) {
    SameAt(before, after, p) || (p in after ==> after[p].home == p)
  }

  ghost predicate OwnRemoved(before: set<Version>, after: set<Version>) {
    forall v <- after - before :: v.home.Staging?
  }

  /** A new temporary file with the candidate, read back. */
  method Stage(world: World, destination: Path, original: Snapshot, contents: Content, name: nat)
    returns (r: Result<Replacement, Failure>)
    requires world.Valid()
    modifies world
    ensures world.Kept() && OnlyEdited(old(world.files), world.files, {Staging(name)})
    ensures OwnAt(old(world.files), world.files, Staging(name)) && OwnRemoved(old(world.removed), world.removed)
    ensures Quiet(old(world.script)) ==> Unmoved(old(world.files), world.files, {Staging(name)})
    ensures r.Err? ==> r.error == Operation
    ensures r.Ok? ==> fresh(r.value) && !r.value.applied && !r.value.keep && world.removed == old(world.removed)
    ensures r.Ok? ==>
      r.value.destination == destination && r.value.original == original && r.value.staged == Staging(name)
    ensures r.Ok? ==> r.value.candidate.bytes == contents && Holds(world.files, Staging(name), r.value.candidate)
    ensures r.Ok? ==> Staging(name) !in old(world.files) && world.files[Staging(name)].home == Staging(name)
    ensures r.Ok? ==> r.value.displaced == None
    ensures old(StagedAt(world.Now(), Staging(name), contents)) == if r.Ok? then Some(world.Now()) else None
    ensures r.Ok? ==> r.value.candidate == Snapshot(Next(old(world.script)).inode, contents)
    ensures Smooth(old(world.script)) && Staging(name) !in old(world.files) ==> r.Ok?
  {
    hide Smooth, Quiet, Edited, Injective;
    var staged := Staging(name);
    var created := world.Create(staged, contents);
    assert !created ==> EditedAt(old(world.files), world.files, staged);
    if !created { return Err(Operation); }
    ghost var before := world.files;
    var readBack := world.Read(staged);
    assert EditedAt(before, world.files, staged);
    EditsThen(old(world.files), before, world.files, {staged});
    if readBack.Err? || readBack.value.None? {
      before := world.files;
      world.Unlink(staged);
      EditsThen(old(world.files), before, world.files, {staged});
      return Err(Operation);
    }
    var replacement := new Replacement(destination, original, readBack.value.value, staged);
    return Ok(replacement);
  }

  lemma {:induction false} EditsThen(a: Tree, b: Tree, c: Tree, beside: set<Path>)
    requires OnlyEdited(a, b, beside) && OnlyEdited(b, c, beside)
    ensures OnlyEdited(a, c, beside)
  {
    forall p | p !in beside ensures EditedAt(a, c, p) { assert EditedAt(a, b, p) && EditedAt(b, c, p); }
  }

  /** What staging a file beside the replacements leaves as it was. */
  lemma {:induction false} StagingBeside(
      quiet: bool, rs: seq<Replacement>, before: Tree, world: World, start: Tree, s: Path)
    requires AllSound(rs, before) && OnlyEdited(before, world.files, {s}) && OwnAt(before, world.files, s)
    requires s.Staging? && forall i :: 0 <= i < |rs| ==> s !in rs[i].Paths()
    requires quiet ==> Quiet(world.script) && Unmoved(before, world.files, {s}) && Unmoved(start, before, AllPaths(rs))
    requires quiet ==> forall i :: 0 <= i < |rs| ==> rs[i].Calm(before, start)
    ensures AllSound(rs, world.files) && Peaceful(quiet, rs, world, start)
  {
    forall p | p in world.files && p !in AllPaths(rs) ensures world.files[p].home == p {
      assert p != s ==> EditedAt(before, world.files, p);
    }
    forall i | 0 <= i < |rs| ensures rs[i].Sound(world.files) && (quiet ==> rs[i].Calm(world.files, start)) {
      SoundBeside(rs[i], before, world.files, {s});
      if quiet { CalmBeside(rs[i], before, world.files, start, {s}); }
    }
    if quiet {
      forall p: Path | p.Target? && p !in AllPaths(rs) ensures SameAt(start, world.files, p) {
        assert SameAt(start, before, p) && SameAt(before, world.files, p);
      }
    }
  }

  /** The candidate of one job staged beside those before it. */
  method StageFor(
      world: World, rs: seq<Replacement>, ghost jobs: seq<Job>, job: Job, ghost k: nat, original: Snapshot,
      name: nat,
      ghost quiet: bool, ghost free: bool, ghost start: Tree)
    returns (r: Result<Replacement, Failure>)
    requires Staged(quiet, free, rs, world, start, jobs, k, name) && k < |jobs| && job == jobs[k]
    requires job.candidate.Given? && job.candidate.contents.Some? && job.wanted == Some(original.bytes)
    modifies world
    ensures world.Kept() && OwnRemoved(old(world.removed), world.removed)
    ensures Staged(quiet, false, rs, world, start, jobs, k, name) && (free ==> NamesFree(world.files, name + 1))
    ensures r.Err? ==> r.error == Operation
    ensures r.Ok? ==>
      fresh(r.value) && !r.value.applied && !r.value.keep && r.value.staged == Staging(name) && Answers(r.value, job)
    ensures r.Ok? ==>
      Holds(world.files, Staging(name), r.value.candidate) && world.files[Staging(name)].home == Staging(name)
    ensures r.Ok? ==> r.value.displaced == None && r.value.original == original
    ensures old(StagedAt(world.Now(), Staging(name), job.candidate.contents.value)) ==
      if r.Ok? then Some(world.Now()) else None
    ensures r.Ok? ==>
      r.value.candidate == Snapshot(Next(old(world.script)).inode, job.candidate.contents.value)
    ensures free && Smooth(old(world.script)) ==> r.Ok?
  {
    hide Smooth, Quiet, Edited, Injective, Moved, StagedAt, AnsweredOrIdle, AnswersBefore, OwnRemoved;
    r := Stage(world, job.target, original, job.candidate.contents.value, name);
    forall i | 0 <= i < |rs| ensures Staging(name) !in rs[i].Paths() { assert rs[i].Sound(old(world.files)); }
    if free { NamesStayFree(old(world.files), world.files, name); }
    StagingBeside(quiet, rs, old(world.files), world, start, Staging(name));
  }

  lemma {:induction false} StagedIdle(
    quiet: bool, free: bool, rs: seq<Replacement>, world: World, start: Tree, jobs: seq<Job>, k: nat, name: nat)
    requires Staged(quiet, free, rs, world, start, jobs, k, name) && k < |jobs|
    ensures Idle(jobs[k]) ==> Staged(quiet, free, rs, world, start, jobs, k + 1, name + 1)
  {
    forall i | 0 <= i < |rs| ensures AnswersBefore(rs[i], jobs, k + 1) {
      assert AnswersBefore(rs[i], jobs, k);
      var j :| 0 <= j < k && Answers(rs[i], jobs[j]);
      assert Answers(rs[i], jobs[j]);
    }
    forall j | 0 <= j < k + 1 && Idle(jobs[k]) ensures AnsweredOrIdle(rs, jobs[j]) {}
    assert free ==> NamesFree(world.files, name + 1);
  }

  /** One more job staged, or skipped because it changes nothing. */
  method StageNext(world: World, rs: seq<Replacement>, jobs: seq<Job>, k: nat, original: Option<Snapshot>, name: nat,
                   ghost quiet: bool, ghost free: bool, ghost start: Tree)
    returns (r: Result<seq<Replacement>, Failure>)
    requires Staged(quiet, free, rs, world, start, jobs, k, name) && k < |jobs| && DistinctTargets(jobs)
    requires original.Some? <==> jobs[k].wanted.Some?
    requires original.Some? ==> original.value.bytes == jobs[k].wanted.value
    requires original.Some? && quiet ==> Holds(start, jobs[k].target, original.value)
    modifies world
    ensures world.Kept() && OwnRemoved(old(world.removed), world.removed)
    ensures r.Ok? ==> Staged(quiet, free, r.value, world, start, jobs, k + 1, name + 1)
    ensures r.Ok? ==> rs <= r.value && forall i :: |rs| <= i < |r.value| ==> fresh(r.value[i])
    ensures r.Ok? ==> forall i :: |rs| <= i < |r.value| ==> StagedFrom(r.value[i], jobs[k], original, world.placed)
    ensures r.Err? ==> r.error == Operation && Underway(quiet, rs, world, start, 0)
    ensures var readied := old(Readying(world.Now(), jobs[k], original, name));
      && (r.Ok? <==> readied.Some?)
      && (r.Ok? ==> readied.value.disk == world.Now() && SwapsOf(r.value) == SwapsOf(rs) + readied.value.swaps)
    ensures free && Smooth(old(world.script)) ==> (r.Ok? <==> Doable(jobs[k]))
  {
    hide Staged, Underway, Smooth, Quiet, AnsweredOrIdle, AnswersBefore, World.Valid, Moved, StagedAt, NamesFree, Holds;
    hide StagedFrom, OwnRemoved, DistinctTargets, Works, Injective;
    var job := jobs[k];
    StagedParts(quiet, free, rs, world, start, jobs, k, name);
    assert SwapsOf(rs) + [] == SwapsOf(rs);
    if job.candidate.NotGiven? {
      StagedIdle(quiet, free, rs, world, start, jobs, k, name);
      return Ok(rs);
    }
    if original.None? { return Err(Operation); }
    r := ReadCandidate(world, rs, jobs, job, k, name, quiet, free, start);
    StagedParts(quiet, free, rs, world, start, jobs, k, name);
    if r.Err? || original.value.bytes == job.candidate.contents.value {
      StagedIdle(quiet, free, rs, world, start, jobs, k, name);
      return;
    }
    var staged := StageFor(world, rs, jobs, job, k, original.value, name, quiet, free, start);
    StagedParts(quiet, false, rs, world, start, jobs, k, name);
    if staged.Err? { return Err(Operation); }
    StagedOneMore(quiet, free, rs, world, start, jobs, k, name, staged.value);
    StagedIsOwn(world, staged.value, job, original, name);
    SwapsOfMore(rs, staged.value);
    return Ok(rs + [staged.value]);
  }

  lemma {:induction false} StagedIsOwn(world: World, r: Replacement, job: Job, original: Option<Snapshot>, name: nat)
    requires world.Valid() && Answers(r, job) && original == Some(r.original) && r.staged == Staging(name)
    requires Holds(world.files, r.staged, r.candidate) && world.files[r.staged].home == r.staged
    ensures StagedFrom(r, job, original, world.placed)
  {
    assert world.files[r.staged] in world.files.Values && IsCandidate(r, world.files[r.staged]);
  }

  lemma {:induction false} SwapsOfMore(rs: seq<Replacement>, r: Replacement)
    ensures SwapsOf(rs + [r]) == SwapsOf(rs) + [SwapOf(r)]
  {
    var more := rs + [r];
    assert forall i :: 0 <= i < |rs| ==> more[i] == rs[i];
  }

  method ReadCandidate(
      world: World, rs: seq<Replacement>, ghost jobs: seq<Job>, job: Job, ghost k: nat, ghost name: nat,
      ghost quiet: bool, ghost free: bool, ghost start: Tree)
    returns (r: Result<seq<Replacement>, Failure>)
    requires Staged(quiet, free, rs, world, start, jobs, k, name) && job.candidate.Given?
    modifies world
    ensures world.Kept() && world.removed == old(world.removed) && Staged(quiet, free, rs, world, start, jobs, k, name)
    ensures r.Ok? ==> r.value == rs && job.candidate.contents.Some?
    ensures r.Err? ==> r.error == Operation
    ensures world.Now() == old(Moved(world.Now()))
    ensures r.Ok? <==> old(Works(world.Now())) && job.candidate.contents.Some?
    ensures Smooth(old(world.script)) ==> (r.Ok? <==> job.candidate.contents.Some?)
  {
    var beat := world.Step();
    forall n: nat ensures EditedAt(old(world.files), world.files, Staging(n)) {}
    WatchedKeepsAll(quiet, rs, old(world.files), world, start);
    if beat.fails || job.candidate.contents.None? { return Err(Operation); }
    return Ok(rs);
  }

  lemma {:induction false} PathsOfMore(rs: seq<Replacement>, r: Replacement)
    ensures AllPaths(rs + [r]) == AllPaths(rs) + r.Paths()
  {
    assert forall x :: x in rs + [r] <==> x in rs || x == r;
    assert r in rs + [r];
    assert forall x :: x in rs ==> x in rs + [r];
  }

  ghost predicate Apart(rs: seq<Replacement>, r: Replacement) {
    forall i :: 0 <= i < |rs| ==> rs[i] != r && rs[i].Paths() !! r.Paths()
  }

  lemma {:induction false} MoreDistinct(rs: seq<Replacement>, r: Replacement)
    requires Distinct(rs) && Apart(rs, r)
    ensures Distinct(rs + [r])
  {
    var more := rs + [r];
    assert forall i :: 0 <= i < |rs| ==> more[i] == rs[i];
  }

  lemma {:induction false} MoreSound(rs: seq<Replacement>, r: Replacement, files: Tree)
    requires AllSound(rs, files) && Apart(rs, r) && r.Sound(files)
    ensures AllSound(rs + [r], files)
  {
    PathsOfMore(rs, r);
    MoreDistinct(rs, r);
    var more := rs + [r];
    forall i | 0 <= i < |more| ensures more[i].Sound(files) { assert i < |rs| ==> more[i] == rs[i]; }
  }

  lemma {:induction false} MorePeaceful(quiet: bool, rs: seq<Replacement>, r: Replacement, world: World, start: Tree)
    requires Peaceful(quiet, rs, world, start) && (quiet ==> r.Calm(world.files, start))
    ensures Peaceful(quiet, rs + [r], world, start)
  {
    PathsOfMore(rs, r);
    var more := rs + [r];
    forall i | 0 <= i < |more| && quiet ensures more[i].Calm(world.files, start) {
      assert i < |rs| ==> more[i] == rs[i];
    }
  }

  lemma {:induction false} MoreUnderway(quiet: bool, rs: seq<Replacement>, r: Replacement, world: World, start: Tree)
    requires Underway(quiet, rs, world, start, 0) && Apart(rs, r) && r.Sound(world.files) && !r.keep
    requires quiet ==> r.Calm(world.files, start)
    ensures Underway(quiet, rs + [r], world, start, 0)
  {
    MoreSound(rs, r, world.files);
    MorePeaceful(quiet, rs, r, world, start);
    var more := rs + [r];
    forall i | 0 <= i < |more| ensures !more[i].keep { assert i < |rs| ==> more[i] == rs[i]; }
  }

  lemma {:induction false} MoreAnswers(rs: seq<Replacement>, r: Replacement, jobs: seq<Job>, k: nat)
    requires k < |jobs| && Answers(r, jobs[k])
    requires forall i :: 0 <= i < |rs| ==> AnswersBefore(rs[i], jobs, k)
    requires forall j :: 0 <= j < k ==> AnsweredOrIdle(rs, jobs[j])
    ensures forall i :: 0 <= i < |rs + [r]| ==> AnswersBefore((rs + [r])[i], jobs, k + 1)
    ensures forall j :: 0 <= j < k + 1 ==> AnsweredOrIdle(rs + [r], jobs[j])
  {
    var more := rs + [r];
    forall i | 0 <= i < |more| ensures AnswersBefore(more[i], jobs, k + 1) {
      if i < |rs| {
        assert more[i] == rs[i];
        var j :| 0 <= j < k && Answers(rs[i], jobs[j]);
      }
    }
    forall j | 0 <= j < k + 1 ensures AnsweredOrIdle(more, jobs[j]) {
      if j == k {
        assert Answers(more[|rs|], jobs[j]);
      } else if !Idle(jobs[j]) {
        var i :| 0 <= i < |rs| && Answers(rs[i], jobs[j]);
        assert Answers(more[i], jobs[j]);
      }
    }
  }

  lemma {:induction false} ApartFromStaged(
      rs: seq<Replacement>, files: Tree, jobs: seq<Job>, k: nat, name: nat, r: Replacement)
    requires AllSound(rs, files) && k < |jobs| && DistinctTargets(jobs) && Answers(r, jobs[k])
    requires r.staged == Staging(name)
    requires forall i :: 0 <= i < |rs| ==>
      rs[i] != r && rs[i].staged.Staging? && rs[i].staged.n < name && AnswersBefore(rs[i], jobs, k)
    ensures Apart(rs, r) && r.destination !in AllPaths(rs)
  {
    forall i | 0 <= i < |rs| ensures rs[i].Paths() !! r.Paths() {
      var j :| 0 <= j < k && Answers(rs[i], jobs[j]);
      assert rs[i].Sound(files);
    }
    assert r.destination in r.Paths();
  }

  lemma {:induction false} StagedOneMore(quiet: bool, free: bool, rs: seq<Replacement>, world: World, start: Tree,
    jobs: seq<Job>, k: nat, name: nat, r: Replacement)
    requires Staged(quiet, false, rs, world, start, jobs, k, name) && (free ==> NamesFree(world.files, name + 1))
    requires k < |jobs| && DistinctTargets(jobs)
    requires !r.applied && !r.keep && r.displaced == None && r.staged == Staging(name) && Answers(r, jobs[k])
    requires forall i :: 0 <= i < |rs| ==> rs[i] != r
    requires Holds(world.files, r.staged, r.candidate) && world.files[r.staged].home == r.staged
    requires quiet ==> Holds(start, r.destination, r.original)
    ensures Staged(quiet, free, rs + [r], world, start, jobs, k + 1, name + 1)
  {
    ApartFromStaged(rs, world.files, jobs, k, name, r);
    assert r.destination in world.files ==> world.files[r.destination].home == r.destination;
    assert r.Sound(world.files);
    assert quiet ==> SameAt(start, world.files, r.destination);
    MoreUnderway(quiet, rs, r, world, start);
    MoreAnswers(rs, r, jobs, k);
    NamesBelow(rs, r, name);
  }

  lemma {:induction false} NamesBelow(rs: seq<Replacement>, r: Replacement, name: nat)
    requires forall i :: 0 <= i < |rs| ==> !rs[i].applied && rs[i].staged.Staging? && rs[i].staged.n < name
    requires !r.applied && r.staged == Staging(name)
    ensures forall i :: 0 <= i < |rs + [r]| ==>
      !(rs + [r])[i].applied && (rs + [r])[i].staged.Staging? && (rs + [r])[i].staged.n < name + 1
  {
    var more := rs + [r];
    forall i | 0 <= i < |more| ensures !more[i].applied && more[i].staged.Staging? && more[i].staged.n < name + 1 {
      assert i < |rs| ==> more[i] == rs[i];
    }
  }

  lemma {:induction false} NothingStaged(quiet: bool, free: bool, world: World, start: Tree, jobs: seq<Job>, name: nat)
    requires Underway(quiet, [], world, start, 0) && (free ==> NamesFree(world.files, name))
    ensures Staged(quiet, free, [], world, start, jobs, 0, name) && world.Valid()
    ensures OwnRemoved(world.removed, world.removed)
  {
  }

  lemma {:induction false} FoundParts(
      jobs: seq<Job>, originals: seq<Option<Snapshot>>, k: nat, quiet: bool, start: Tree)
    requires k < |jobs| == |originals| && forall j :: 0 <= j < |jobs| ==> Found(jobs[j], originals[j], quiet, start)
    ensures originals[k].Some? <==> jobs[k].wanted.Some?
    ensures originals[k].Some? ==> originals[k].value.bytes == jobs[k].wanted.value
    ensures originals[k].Some? && quiet ==> Holds(start, jobs[k].target, originals[k].value)
  {
    assert Found(jobs[k], originals[k], quiet, start);
  }

  /** The first `n` jobs are staged from the originals as they were read, nothing
      that came from a project path was unlinked since, and the project is as
      making them ready leaves it. */
  ghost predicate StagedRead(
    quiet: bool, free: bool, rs: seq<Replacement>, world: World, start: Tree, jobs: seq<Job>,
    originals: seq<Option<Snapshot>>, n: nat, name: nat, first: set<Version>, d: Disk)
    requires |originals| == |jobs|
    reads world, rs
  {
    && Staged(quiet, free, rs, world, start, jobs, n, name + n)
    && AllTraced(rs, jobs, originals, world.placed)
    && OwnRemoved(first, world.removed)
    && ReadyingAll(d, jobs, originals, n, name) == Some(Readied(world.Now(), SwapsOf(rs)))
  }

  lemma {:induction false} StagedReadParts(
    quiet: bool, free: bool, rs: seq<Replacement>, world: World, start: Tree, jobs: seq<Job>,
    originals: seq<Option<Snapshot>>, n: nat, name: nat, first: set<Version>, d: Disk)
    requires |originals| == |jobs| && StagedRead(quiet, free, rs, world, start, jobs, originals, n, name, first, d)
    ensures OwnRemoved(first, world.removed) && AllTraced(rs, jobs, originals, world.placed)
    ensures Underway(quiet, rs, world, start, 0)
    ensures forall i :: 0 <= i < |rs| ==> !rs[i].applied && AnswersBefore(rs[i], jobs, |jobs|)
    ensures n == |jobs| ==> forall j :: 0 <= j < |jobs| ==> AnsweredOrIdle(rs, jobs[j])
    ensures ReadyingAll(d, jobs, originals, n, name) == Some(Readied(world.Now(), SwapsOf(rs)))
  {
    StagedParts(quiet, free, rs, world, start, jobs, n, name + n);
  }

  lemma {:induction false} NothingRead(
    quiet: bool, free: bool, world: World, start: Tree, jobs: seq<Job>, originals: seq<Option<Snapshot>>, name: nat)
    requires |originals| == |jobs|
    requires Underway(quiet, [], world, start, 0) && (free ==> NamesFree(world.files, name))
    ensures StagedRead(quiet, free, [], world, start, jobs, originals, 0, name, world.removed, world.Now())
    ensures world.Valid()
  {
    NothingStaged(quiet, free, world, start, jobs, name);
  }

  /** One more job staged from the original as it was read. */
  method StageStep(world: World, rs: seq<Replacement>, jobs: seq<Job>, originals: seq<Option<Snapshot>>, k: nat,
                   name: nat, ghost quiet: bool, ghost free: bool, ghost start: Tree, ghost first: set<Version>,
                   ghost d: Disk)
    returns (r: Result<seq<Replacement>, Failure>)
    requires |originals| == |jobs| && forall j :: 0 <= j < |jobs| ==> Found(jobs[j], originals[j], quiet, start)
    requires StagedRead(quiet, free, rs, world, start, jobs, originals, k, name, first, d)
    requires k < |jobs| && DistinctTargets(jobs)
    modifies world
    ensures world.Kept()
    ensures r.Ok? ==> StagedRead(quiet, free, r.value, world, start, jobs, originals, k + 1, name, first, d)
    ensures r.Ok? ==> rs <= r.value && forall i :: |rs| <= i < |r.value| ==> fresh(r.value[i])
    ensures OwnRemoved(first, world.removed) && AllTraced(rs, jobs, originals, world.placed)
    ensures r.Err? ==> r.error == Operation && Underway(quiet, rs, world, start, 0)
    ensures r.Err? ==> ReadyingAll(d, jobs, originals, |jobs|, name) == None
    ensures forall i :: 0 <= i < |rs| ==> !rs[i].applied && AnswersBefore(rs[i], jobs, |jobs|)
    ensures free && Smooth(old(world.script)) ==> (r.Ok? <==> Doable(jobs[k]))
  {
    hide Smooth, Quiet, Underway, Staged, Doable, World.Valid, OwnRemoved, DistinctTargets, Found, NamesFree, Holds;
    hide AllTraced, StagedFrom, AnswersBefore, AnsweredOrIdle, Readying, Moved;
    FoundParts(jobs, originals, k, quiet, start);
    StagedReadParts(quiet, free, rs, world, start, jobs, originals, k, name, first, d);
    ghost var placed, removed := world.placed, world.removed;
    r := StageNext(world, rs, jobs, k, originals[k], name + k, quiet, free, start);
    StillTraced(rs, if r.Ok? then r.value else rs, jobs, originals, k, placed, world.placed);
    TracedSince(rs, jobs, originals, placed, world.placed);
    OwnRemovedThen(first, removed, world.removed);
    if r.Err? { ReadyingEnds(d, jobs, originals, k + 1, |jobs|, name); }
  }

  method StageAll(world: World, jobs: seq<Job>, originals: seq<Option<Snapshot>>, name: nat,
                  ghost quiet: bool, ghost free: bool, ghost start: Tree)
    returns (r: Result<(), Failure>, rs: seq<Replacement>)
    requires Underway(quiet, [], world, start, 0) && DistinctTargets(jobs) && (free ==> NamesFree(world.files, name))
    requires |originals| == |jobs| && forall j :: 0 <= j < |jobs| ==> Found(jobs[j], originals[j], quiet, start)
    modifies world
    ensures world.Kept() && OwnRemoved(old(world.removed), world.removed)
    ensures Underway(quiet, rs, world, start, 0)
    ensures forall i :: 0 <= i < |rs| ==> fresh(rs[i]) && !rs[i].applied && AnswersBefore(rs[i], jobs, |jobs|)
    ensures AllTraced(rs, jobs, originals, world.placed)
    ensures r.Ok? ==> forall j :: 0 <= j < |jobs| ==> AnsweredOrIdle(rs, jobs[j])
    ensures r.Err? ==> r.error == Operation
    ensures ReadyingAll(old(world.Now()), jobs, originals, |jobs|, name) ==
      if r.Ok? then Some(Readied(world.Now(), SwapsOf(rs))) else None
    ensures free && Smooth(old(world.script)) && (forall j :: 0 <= j < |jobs| ==> Doable(jobs[j])) ==> r.Ok?
  {
    hide Smooth, Quiet, Underway, StagedRead, AnswersBefore, AnsweredOrIdle, Doable, OnlyEdited, ReadyingAll;
    hide World.Valid, OwnRemoved, DistinctTargets, Found, NamesFree, AllTraced, Moved;
    rs := [];
    ghost var first, d := world.removed, world.Now();
    NothingRead(quiet, free, world, start, jobs, originals, name);
    for k := 0 to |jobs|
      invariant world.Kept() && StagedRead(quiet, free, rs, world, start, jobs, originals, k, name, first, d)
      invariant forall i :: 0 <= i < |rs| ==> fresh(rs[i])
    {
      var next := StageStep(world, rs, jobs, originals, k, name, quiet, free, start, first, d);
      if next.Err? { return Err(next.error), rs; }
      rs := next.value;
    }
    StagedReadParts(quiet, free, rs, world, start, jobs, originals, |jobs|, name, first, d);
    return Ok(()), rs;
  }

  lemma {:induction false} NamesStayFree(before: Tree, after: Tree, name: nat)
    requires OnlyEdited(before, after, {Staging(name)})
    ensures NamesFree(before, name) ==> NamesFree(after, name + 1)
  {
    forall n: nat | NamesFree(before, name) && name + 1 <= n ensures Staging(n) !in after {
      assert EditedAt(before, after, Staging(n));
    }
  }

  lemma {:induction false} OwnRemovedThen(a: set<Version>, b: set<Version>, c: set<Version>)
    requires OwnRemoved(a, b) && OwnRemoved(b, c)
    ensures OwnRemoved(a, c)
  {
    forall v <- c - a ensures v.home.Staging? { assert v in b - a || v in c - b; }
  }

  /** The file of a job as it was read before anything was staged. */
  ghost predicate Found(job: Job, original: Option<Snapshot>, quiet: bool, start: Tree) {
    && (original.Some? <==> job.wanted.Some?)
    && (original.Some? ==> original.value.bytes == job.wanted.value)
    && (original.Some? && quiet ==> Holds(start, job.target, original.value))
  }

  // ---- What an upgrade guarantees ----

  /** Still where it was put, or in a recovery file the failure names. */
  ghost predicate Survives(files: Tree, kept: seq<Path>, v: Version) {
    || (v.home in files && files[v.home] == v)
    || exists k <- kept :: k in files && files[k] == v
  }

  /** What is lost of what was put at project paths during the run and not
      written over since: exactly the versions an exchange took off their path
      and the helper then let go. Each of them is, file and bytes, the original
      as the helper had read it (on success) or its own candidate (after a
      rollback), and is gone once the unlink succeeds. */
  ghost predicate LosesOnlyGivenUp(world: World, before: set<Version>, rs: seq<Replacement>, r: Result<(), Failure>)
    reads world, rs
  {
    && (forall v :: v in world.placed && v !in world.overwritten && v !in before && v.home.Target? ==>
          (Survives(world.files, KeptPaths(r), v) <==> !SomeGivenUp(rs, v)))
    && (forall i, v :: 0 <= i < |rs| && GivenUp(rs[i], v) ==>
          IsLeftover(rs[i], v, r.Ok?) && (v.home.Target? ==> (v in world.removed <==> rs[i].staged !in world.files)))
  }

  ghost predicate SomeGivenUp(rs: seq<Replacement>, v: Version)
    reads rs
  {
    exists i :: 0 <= i < |rs| && GivenUp(rs[i], v)
  }

  /** Everything is in its final place. */
  ghost predicate Settled(rs: seq<Replacement>, world: World, middle: set<Version>, r: Result<(), Failure>)
    reads world, rs
  {
    && world.Valid() && Dropping(rs, world.files, r.Ok?, |rs|)
    && Unlinked(rs, middle, world.removed, world.files)
    && forall i :: 0 <= i < |rs| ==> (rs[i].keep <==> rs[i].staged in KeptPaths(r))
  }

  lemma {:induction false} NotSurvivingIsGivenUp(
    rs: seq<Replacement>, world: World, middle: set<Version>, r: Result<(), Failure>, v: Version)
    requires Settled(rs, world, middle, r) && v in world.placed && v !in world.overwritten && v !in middle
    requires v.home.Target?
    ensures Survives(world.files, KeptPaths(r), v) || SomeGivenUp(rs, v)
  {
    if v in world.files.Values {
      var p :| p in world.files && world.files[p] == v;
      if p in AllPaths(rs) {
        var one :| one in rs && p in one.Paths();
        var i :| 0 <= i < |rs| && rs[i] == one;
        assert v.home in rs[i].Paths();
        assert p == rs[i].staged ==> HoldsTaken(rs[i], world.files);
        assert p == rs[i].staged && !rs[i].keep ==> GivenUp(rs[i], v);
      }
    } else {
      assert v in world.removed - middle;
      var i :| 0 <= i < |rs| && rs[i].staged !in world.files && rs[i].displaced == Some(v);
      assert GivenUp(rs[i], v);
    }
  }

  lemma {:induction false} GivenUpIsNotSurviving(
    rs: seq<Replacement>, world: World, middle: set<Version>, r: Result<(), Failure>, i: nat, v: Version)
    requires Settled(rs, world, middle, r) && i < |rs| && GivenUp(rs[i], v) && v.home.Target?
    ensures !Survives(world.files, KeptPaths(r), v) && (v in world.removed <==> rs[i].staged !in world.files)
  {
    if rs[i].staged in world.files {
      assert HoldsTaken(rs[i], world.files) && v in world.files.Values;
      assert !(v.home in world.files && world.files[v.home] == v);
    } else {
      assert v in world.removed && v !in world.files.Values;
    }
  }

  lemma {:induction false} LossesAccountedFor(
      rs: seq<Replacement>, world: World, before: set<Version>, middle: set<Version>,
      r: Result<(), Failure>)
    requires Settled(rs, world, middle, r) && OwnRemoved(before, middle)
    ensures LosesOnlyGivenUp(world, before, rs, r)
  {
    forall v | v in world.placed && v !in world.overwritten && v !in before && v.home.Target?
      ensures Survives(world.files, KeptPaths(r), v) <==> !SomeGivenUp(rs, v)
    {
      assert v in middle ==> v in middle - before;
      NotSurvivingIsGivenUp(rs, world, middle, r, v);
      if i :| 0 <= i < |rs| && GivenUp(rs[i], v) { GivenUpIsNotSurviving(rs, world, middle, r, i, v); }
    }
    forall i, v | 0 <= i < |rs| && GivenUp(rs[i], v)
      ensures IsLeftover(rs[i], v, r.Ok?) && (v.home.Target? ==> (v in world.removed <==> rs[i].staged !in world.files))
    {
      if v.home.Target? { GivenUpIsNotSurviving(rs, world, middle, r, i, v); }
    }
  }

  /** The target has its candidate, or is as it was when none was given. */
  ghost predicate Fulfilled(job: Job, before: Tree, after: Tree) {
    if job.candidate.NotGiven? then
      SameAt(before, after, job.target)
    else
      && job.target in after && after[job.target].entry.Regular?
      && job.candidate == Given(Some(after[job.target].entry.bytes))
  }

  ghost predicate AllFulfilled(jobs: seq<Job>, before: Tree, after: Tree) {
    && (forall j :: 0 <= j < |jobs| ==> Fulfilled(jobs[j], before, after))
    && (forall p: Path ::
          p.Target? && (forall j :: 0 <= j < |jobs| ==> p != jobs[j].target) ==> SameAt(before, after, p))
  }

  lemma {:induction false} TargetBeside(rs: seq<Replacement>, jobs: seq<Job>, p: Path)
    requires forall i :: 0 <= i < |rs| ==> rs[i].staged.Staging? && AnswersBefore(rs[i], jobs, |jobs|)
    requires p.Target? && forall i :: 0 <= i < |rs| ==> rs[i].destination != p
    ensures p !in AllPaths(rs)
  {
    forall r | r in rs ensures p !in r.Paths() {
      var i :| 0 <= i < |rs| && rs[i] == r;
    }
  }

  lemma {:induction false} CommittedFulfils(
    rs: seq<Replacement>, jobs: seq<Job>, originals: seq<Option<Snapshot>>, files: Tree, start: Tree)
    requires Committed(rs, files, start) && DistinctTargets(jobs) && Dropping(rs, files, true, |rs|)
    requires forall i :: 0 <= i < |rs| ==> AnswersBefore(rs[i], jobs, |jobs|)
    requires forall j :: 0 <= j < |jobs| ==> AnsweredOrIdle(rs, jobs[j])
    requires |originals| == |jobs| && forall j :: 0 <= j < |jobs| ==> Found(jobs[j], originals[j], true, start)
    ensures AllFulfilled(jobs, start, files)
  {
    forall j | 0 <= j < |jobs| ensures Fulfilled(jobs[j], start, files) {
      if i :| 0 <= i < |rs| && rs[i].destination == jobs[j].target {
        var k :| 0 <= k < |jobs| && Answers(rs[i], jobs[k]);
        assert k == j && Holds(files, rs[i].destination, rs[i].candidate);
      } else {
        TargetBeside(rs, jobs, jobs[j].target);
        assert SameAt(start, files, jobs[j].target);
      }
    }
    forall p: Path | p.Target? && forall j :: 0 <= j < |jobs| ==> p != jobs[j].target ensures SameAt(start, files, p) {
      forall i | 0 <= i < |rs| ensures rs[i].destination != p {
        var k :| 0 <= k < |jobs| && Answers(rs[i], jobs[k]);
      }
      TargetBeside(rs, jobs, p);
    }
  }

  function Jobs(
      flakeWanted: Option<Content>, lockWanted: Option<Content>, flake: Candidate, lock: Candidate): (jobs: seq<Job>)
    ensures DistinctTargets(jobs) && forall j :: 0 <= j < |jobs| ==> jobs[j].target != PROJECT
  {
    [Job(LOCK, lockWanted, lock), Job(FLAKE, flakeWanted, flake)]
  }

  lemma {:induction false} OnlyJobs(rs: seq<Replacement>, jobs: seq<Job>)
    requires forall i :: 0 <= i < |rs| ==> AnswersBefore(rs[i], jobs, |jobs|)
    requires forall j :: 0 <= j < |jobs| ==> jobs[j].target != PROJECT
    ensures ProjectAside(rs)
  {
    forall r | r in rs ensures r.destination != PROJECT {
      var i :| 0 <= i < |rs| && rs[i] == r;
      var j :| 0 <= j < |jobs| && Answers(rs[i], jobs[j]);
    }
  }

  /** The paths are as the caller says and every job can be carried out. */
  ghost predicate CanUpgrade(jobs: seq<Job>, project: Option<Content>, files: Tree) {
    AsWanted(jobs, project, files) && forall j :: 0 <= j < |jobs| ==> Doable(jobs[j])
  }

  lemma {:induction false} AnsweredIsDoable(rs: seq<Replacement>, jobs: seq<Job>)
    requires forall j :: 0 <= j < |jobs| ==> AnsweredOrIdle(rs, jobs[j])
    ensures forall j :: 0 <= j < |jobs| ==> Doable(jobs[j])
  {
    forall j | 0 <= j < |jobs| ensures Doable(jobs[j]) {
      if !Idle(jobs[j]) { var i :| 0 <= i < |rs| && Answers(rs[i], jobs[j]); }
    }
  }

  lemma {:induction false} NothingUnderway(quiet: bool, world: World, start: Tree)
    requires world.Valid() && AtHomeBeside(world.files, {}) && (quiet ==> Quiet(world.script) && world.files == start)
    ensures Underway(quiet, [], world, start, 0)
  {
  }

  /** Staging failed: the files staged so far go again. */
  method GiveBack(world: World, rs: seq<Replacement>, ghost quiet: bool, ghost start: Tree)
    requires Underway(quiet, rs, world, start, 0) && forall i :: 0 <= i < |rs| ==> !rs[i].applied
    modifies world
    ensures world.Kept() && Dropping(rs, world.files, false, |rs|)
    ensures Unlinked(rs, old(world.removed), world.removed, world.files)
    ensures Smooth(old(world.script)) ==> CleanedUp(rs, world.files, |rs|)
    ensures quiet ==> Restored(world.files, start)
    ensures forall i :: 0 <= i < |rs| ==> !rs[i].keep
  {
    ReadyToDrop(rs, world.files, false);
    if quiet { CalmTargets(rs, world.files, start); }
    ghost var before := world.files;
    DropAll(world, rs, false);
    if quiet { UnmovedThen(start, before, world.files, {}, {}); }
  }

  lemma {:induction false} NamesStill(before: Tree, after: Tree, name: nat)
    requires OnlyEdited(before, after, {})
    ensures NamesFree(before, name) ==> NamesFree(after, name)
  {
    forall n: nat | NamesFree(before, name) && name <= n ensures Staging(n) !in after {
      assert EditedAt(before, after, Staging(n));
    }
  }

  /** What the paths held when the helper read the file of this job: the lock of
      the directory is taken first, then the flake is read, then its lock. */
  function WhenRead(d: Disk, j: nat): Tree {
    Later(d, if j == 1 then 2 else 3).files
  }

  /** Each original is what its path held when it was read. */
  ghost predicate AsRead(jobs: seq<Job>, originals: seq<Option<Snapshot>>, d: Disk)
    requires |jobs| == |originals|
  {
    forall j :: 0 <= j < |jobs| && originals[j].Some? ==> Holds(WhenRead(d, j), jobs[j].target, originals[j].value)
  }

  /** Every replacement answers a job: it expects what the path held when the
      helper read it, and its candidate is a temporary file of the helper's own. */
  ghost predicate FromJobs(rs: seq<Replacement>, jobs: seq<Job>, d: Disk, placed: set<Version>) {
    forall i :: 0 <= i < |rs| ==> FromAJob(rs[i], jobs, d, placed)
  }

  ghost predicate FromAJob(r: Replacement, jobs: seq<Job>, d: Disk, placed: set<Version>) {
    exists j :: 0 <= j < |jobs| && FromJob(r, jobs[j], WhenRead(d, j), placed)
  }

  ghost predicate FromJob(r: Replacement, job: Job, read: Tree, placed: set<Version>) {
    && Answers(r, job) && Holds(read, r.destination, r.original) && r.staged.Staging?
    && exists v <- placed :: IsCandidate(r, v)
  }

  /** The version repeats, file and bytes, what the helper read before the upgrade
      took its path, or the candidate that the helper itself put there. */
  ghost predicate Repeats(v: Version, job: Job, read: Tree, placed: set<Version>, success: bool) {
    && v.home == job.target && v.entry.Regular? && job.candidate.Given?
    && if success then
         job.wanted == Some(v.entry.bytes) && job.target in read && read[job.target].entry == v.entry
       else
         job.candidate == Given(Some(v.entry.bytes)) && exists w <- placed :: w.home.Staging? && w.entry == v.entry
  }

  /** Nothing put at a project path during the run is lost but what an editor
      wrote over and what repeats a file the upgrade had been told to replace. */
  ghost predicate LosesOnlyRepeats(world: World, before: set<Version>, jobs: seq<Job>, d: Disk, r: Result<(), Failure>)
    reads world
  {
    forall v :: v in world.placed && v !in world.overwritten && v !in before && v.home.Target? ==>
      || Survives(world.files, KeptPaths(r), v)
      || exists j :: 0 <= j < |jobs| && Repeats(v, jobs[j], WhenRead(d, j), world.placed, r.Ok?)
  }

  lemma {:induction false} TracedFromJobs(
      rs: seq<Replacement>, jobs: seq<Job>, originals: seq<Option<Snapshot>>, d: Disk, placed: set<Version>)
    requires |originals| == |jobs| && AllTraced(rs, jobs, originals, placed) && AsRead(jobs, originals, d)
    ensures FromJobs(rs, jobs, d, placed)
  {
    forall i | 0 <= i < |rs| ensures FromAJob(rs[i], jobs, d, placed) {
      assert Traced(rs[i], jobs, originals, placed);
      var j :| 0 <= j < |jobs| && StagedFrom(rs[i], jobs[j], originals[j], placed);
      assert FromJob(rs[i], jobs[j], WhenRead(d, j), placed);
    }
  }

  lemma {:induction false} FromJobRepeats(
      r: Replacement, job: Job, read: Tree, placed: set<Version>, success: bool, v: Version)
    requires FromJob(r, job, read, placed) && IsLeftover(r, v, success) && v.home.Target?
    ensures Repeats(v, job, read, placed, success)
  {
    var w :| w in placed && IsCandidate(r, w);
    assert w.home.Staging? && (!success ==> w.entry == v.entry);
  }

  /** What an exchange took and the helper let go repeats what it had read there
      or put there. */
  lemma {:induction false} LossesRepeat(
      rs: seq<Replacement>, world: World, before: set<Version>, jobs: seq<Job>, d: Disk, r: Result<(), Failure>)
    requires LosesOnlyGivenUp(world, before, rs, r) && FromJobs(rs, jobs, d, world.placed)
    ensures LosesOnlyRepeats(world, before, jobs, d, r)
  {
    hide Repeats, FromJob, WhenRead, IsLeftover, Survives, GivenUp;
    forall v | v in world.placed && v !in world.overwritten && v !in before && v.home.Target?
        && !Survives(world.files, KeptPaths(r), v)
      ensures exists j :: 0 <= j < |jobs| && Repeats(v, jobs[j], WhenRead(d, j), world.placed, r.Ok?)
    {
      var i :| 0 <= i < |rs| && GivenUp(rs[i], v);
      assert IsLeftover(rs[i], v, r.Ok?) && FromAJob(rs[i], jobs, d, world.placed);
      var j :| 0 <= j < |jobs| && FromJob(rs[i], jobs[j], WhenRead(d, j), world.placed);
      FromJobRepeats(rs[i], jobs[j], WhenRead(d, j), world.placed, r.Ok?, v);
    }
  }

  // ---- Which schedules let an upgrade succeed ----

  function FileAt(files: Tree, p: Path): Option<Snapshot> {
    match ReadAt(files, p) case Ok(found) => found case Err(_) => None
  }

  /** The first moves of an upgrade: the directory is locked, the flake and its lock
      are read and are as the caller wants, and so is the project file. */
  predicate Begins(d: Disk, jobs: seq<Job>, project: Option<Content>)
    requires |jobs| == 2
  {
    Passes(d) && JobHeld(Later(d, 1), jobs[1]) && JobHeld(Later(d, 2), jobs[0]) && ProjectHeld(Later(d, 3), project)
  }

  function Originals(d: Disk, jobs: seq<Job>): (originals: seq<Option<Snapshot>>)
    requires |jobs| == 2
    ensures |originals| == |jobs|
  {
    [FileAt(WhenRead(d, 0), jobs[0].target), FileAt(WhenRead(d, 1), jobs[1].target)]
  }

  /** Every job can be made ready, and the transaction commits. */
  ghost predicate Carrying(
    d: Disk, jobs: seq<Job>, originals: seq<Option<Snapshot>>, project: Option<Content>, name: nat)
    requires |jobs| == |originals|
  {
    var readied := ReadyingAll(d, jobs, originals, |jobs|, name);
    readied.Some? && Committing(readied.value.disk, readied.value.swaps, jobs, project)
  }

  ghost predicate Upgrading(d: Disk, jobs: seq<Job>, project: Option<Content>, name: nat)
    requires |jobs| == 2
  {
    Begins(d, jobs, project) && Carrying(Later(d, 4), jobs, Originals(d, jobs), project, name)
  }

  /** The three reads every upgrade begins with, once it holds the directory. */
  method Begin(world: World, jobs: seq<Job>, project: Option<Content>, ghost start: Tree)
    returns (r: Result<seq<Option<Snapshot>>, Failure>)
    requires world.Valid() && |jobs| == 2 && jobs[0].target.Target? && jobs[1].target.Target? && start == world.files
    modifies world
    ensures world.Watched()
    ensures r.Ok? ==> |r.value| == |jobs|
    ensures r.Ok? ==> forall j :: 0 <= j < |jobs| ==> Found(jobs[j], r.value[j], Quiet(old(world.script)), start)
    ensures r.Ok? ==> AsRead(jobs, r.value, old(world.Now()))
    ensures r.Ok? <==> Begins(old(world.Now()), jobs, project)
    ensures r.Ok? ==> r.value == Originals(old(world.Now()), jobs) && world.Now() == Later(old(world.Now()), 4)
    ensures r.Err? ==> !r.error.Rollback?
    ensures Smooth(old(world.script)) ==> (r.Ok? <==> AsWanted(jobs, project, start))
  {
    hide Smooth, Quiet, Edited, Injective, Saved, Moved, Later, World.Valid, ProjectIn;
    FirstMoves(world.Now());
    var locked := Pause(world);
    if locked.Err? { return Err(locked.error); }
    ghost var a := world.files;
    var flake := Expect(world, jobs[1].target, jobs[1].wanted);
    EditsThen(start, a, world.files, {});
    if flake.Err? { return Err(flake.error); }
    ghost var b := world.files;
    var lock := Expect(world, jobs[0].target, jobs[0].wanted);
    EditsThen(start, b, world.files, {});
    if lock.Err? { return Err(lock.error); }
    ghost var c := world.files;
    var seen := ExpectProject(world, project);
    EditsThen(start, c, world.files, {});
    if seen.Err? { return Err(seen.error); }
    return Ok([lock.value, flake.value]);
  }

  /** From the originals as read to the end of the transaction. */
  method Carry(world: World, jobs: seq<Job>, originals: seq<Option<Snapshot>>, project: Option<Content>, name: nat,
               ghost quiet: bool, ghost start: Tree)
    returns (r: Result<(), Failure>, ghost rs: seq<Replacement>)
    requires Underway(quiet, [], world, start, 0) && DistinctTargets(jobs)
    requires forall j :: 0 <= j < |jobs| ==> jobs[j].target != PROJECT
    requires |originals| == |jobs| && forall j :: 0 <= j < |jobs| ==> Found(jobs[j], originals[j], quiet, start)
    modifies world
    ensures world.Kept()
    ensures r.Err? && r.error.Rollback? ==> r.error.kept != []
    ensures LosesOnlyGivenUp(world, old(world.removed), rs, r) && AllTraced(rs, jobs, originals, world.placed)
    ensures Smooth(old(world.script)) ==> CleanedUp(rs, world.files, |rs|)
    ensures quiet && r.Ok? ==> AllFulfilled(jobs, start, world.files)
    ensures quiet && r.Err? && !r.error.Rollback? ==> Restored(world.files, start)
    ensures r.Ok? ==> forall j :: 0 <= j < |jobs| ==> Doable(jobs[j])
    ensures r.Ok? <==> Carrying(old(world.Now()), jobs, originals, project, name)
    ensures quiet && Smooth(old(world.script)) && NamesFree(old(world.files), name) ==>
      CanUpgrade(jobs, project, start) ==> r.Ok?
  {
    hide Quiet, Smooth, Edited, Underway, AllFulfilled, LosesOnlyGivenUp, Dropping, Unlinked, Restored, Saved, Doable;
    hide World.Valid, Committed, DistinctTargets, AnswersBefore, AnsweredOrIdle, OwnRemoved, Injective, NamesFree;
    hide AllTraced, ReadyingAll, Committing;
    ghost var before := world.removed;
    var staged, replacements := StageAll(world, jobs, originals, name, quiet, NamesFree(world.files, name), start);
    rs := replacements;
    ghost var middle, placed := world.removed, world.placed;
    if staged.Err? {
      r := Err(staged.error);
      GiveBack(world, replacements, quiet, start);
    } else {
      OnlyJobs(replacements, jobs);
      AnsweredIsDoable(replacements, jobs);
      r := Commit(world, replacements, jobs, project, quiet, start);
      if quiet && r.Ok? { CommittedFulfils(rs, jobs, originals, world.files, start); }
    }
    LossesAccountedFor(rs, world, before, middle, r);
    TracedSince(rs, jobs, originals, placed, world.placed);
  }

  /** One upgrade. Whatever an editor does meanwhile, what is lost is exactly
      what the helper took off its path and let go; with no editor the outcome
      says what the targets hold; and when nothing interferes it succeeds
      exactly when the paths are as the caller says and the jobs can be done. */
  method Apply(world: World, flakeWanted: Option<Content>, lockWanted: Option<Content>, project: Option<Content>,
               flake: Candidate, lock: Candidate, name: nat)
    returns (r: Result<(), Failure>, ghost rs: seq<Replacement>)
    requires world.Valid() && AtHomeBeside(world.files, {})
    modifies world
    ensures world.Kept()
    ensures r.Err? && r.error.Rollback? ==> r.error.kept != []
    ensures LosesOnlyGivenUp(world, old(world.removed), rs, r)
    ensures LosesOnlyRepeats(world, old(world.removed), Jobs(flakeWanted, lockWanted, flake, lock), old(world.Now()), r)
    ensures FromJobs(rs, Jobs(flakeWanted, lockWanted, flake, lock), old(world.Now()), world.placed)
    ensures Smooth(old(world.script)) ==> CleanedUp(rs, world.files, |rs|)
    ensures Quiet(old(world.script)) && r.Ok? ==>
      AllFulfilled(Jobs(flakeWanted, lockWanted, flake, lock), old(world.files), world.files)
    ensures Quiet(old(world.script)) && r.Ok? ==>
      Delivered(world.files, FLAKE, flake) && Delivered(world.files, LOCK, lock)
    ensures r.Ok? ==> Saved(Later(old(world.Now()), 2).files, FLAKE, flakeWanted)
    ensures r.Ok? ==> Saved(Later(old(world.Now()), 3).files, LOCK, lockWanted)
    ensures Quiet(old(world.script)) && r.Err? && !r.error.Rollback? ==> Restored(world.files, old(world.files))
    ensures r.Ok? <==> Upgrading(old(world.Now()), Jobs(flakeWanted, lockWanted, flake, lock), project, name)
    ensures Smooth(old(world.script)) && NamesFree(old(world.files), name) ==>
      (r.Ok? <==> CanUpgrade(Jobs(flakeWanted, lockWanted, flake, lock), project, old(world.files)))
  {
    hide Quiet, Smooth, Edited, Underway, AllFulfilled, LosesOnlyGivenUp, World.Valid, NamesFree, DistinctTargets;
    hide Saved, AllTraced, FromJobs, LosesOnlyRepeats, AsRead, Moved, Carrying, Begins, AtHomeBeside, Found, CleanedUp;
    hide Later, Restored, AsWanted, Survives;
    SmoothIsQuiet(world.script);
    ghost var quiet, start, d := Quiet(world.script), world.files, world.Now();
    var jobs := Jobs(flakeWanted, lockWanted, flake, lock);
    var begun := Begin(world, jobs, project, start);
    EditsKeepHome(start, world.files, {}, {});
    NothingUnderway(quiet, world, start);
    if begun.Err? {
      r, rs := Err(begun.error), [];
      NothingDone(world, jobs, d, start, r);
      return;
    }
    NamesStill(start, world.files, name);
    BeginsMeans(d, flakeWanted, lockWanted, project, flake, lock);
    r, rs := Carry(world, jobs, begun.value, project, name, quiet, start);
    if quiet && r.Ok? { FulfilledMeans(flakeWanted, lockWanted, flake, lock, start, world.files); }
    TracedFromJobs(rs, jobs, begun.value, d, world.placed);
    LossesRepeat(rs, world, old(world.removed), jobs, d, r);
  }

  /** The path holds the candidate given for it, if one was. */
  predicate Delivered(files: Tree, p: Path, candidate: Candidate) {
    candidate.Given? ==>
      p in files && files[p].entry.Regular? && candidate.contents == Some(files[p].entry.bytes)
  }

  lemma {:induction false} FulfilledMeans(
      flakeWanted: Option<Content>, lockWanted: Option<Content>, flake: Candidate, lock: Candidate,
      before: Tree, after: Tree)
    requires AllFulfilled(Jobs(flakeWanted, lockWanted, flake, lock), before, after)
    ensures Delivered(after, FLAKE, flake) && Delivered(after, LOCK, lock)
  {
    var jobs := Jobs(flakeWanted, lockWanted, flake, lock);
    assert Fulfilled(jobs[0], before, after) && Fulfilled(jobs[1], before, after);
  }

  lemma {:induction false} BeginsMeans(
      d: Disk, flakeWanted: Option<Content>, lockWanted: Option<Content>, project: Option<Content>,
      flake: Candidate, lock: Candidate)
    requires Begins(d, Jobs(flakeWanted, lockWanted, flake, lock), project)
    ensures Saved(Later(d, 2).files, FLAKE, flakeWanted) && Saved(Later(d, 3).files, LOCK, lockWanted)
  {
    hide Moved, Saved, Later;
    FirstMoves(d);
  }

  /** Nothing was staged, and nothing is lost. */
  lemma {:induction false} NothingDone(
      world: World, jobs: seq<Job>, d: Disk, start: Tree, r: Result<(), Failure>)
    requires world.Valid() && AtHomeBeside(world.files, {}) && r.Err? && !r.error.Rollback?
    ensures LosesOnlyGivenUp(world, world.removed, [], r) && LosesOnlyRepeats(world, world.removed, jobs, d, r)
    ensures FromJobs([], jobs, d, world.placed) && CleanedUp([], world.files, 0)
    ensures start == world.files ==> Restored(world.files, start)
  {
    LossesAccountedFor([], world, world.removed, world.removed, r);
    LossesRepeat([], world, world.removed, jobs, d, r);
  }
}
