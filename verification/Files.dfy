/** The directory an upgrade works in (nix/install/upgrade-helper/src/main.rs):
    what the helper reads and exchanges while an editor writes the same paths. */
module Files {
  import opened Wrappers

  type Content = seq<int>

  /** Project paths, which anybody edits, and the helper's own temporary names. */
  datatype Path = Target(name: string) | Staging(n: nat)

  /** A regular file with its identity, or anything else (a link, a directory)
      with the file content it leads to, if any. */
  datatype Entry = Regular(inode: nat, bytes: Content) | Special(id: nat, resolves: Option<Content>)

  datatype Snapshot = Snapshot(inode: nat, bytes: Content)

  /** One thing put at one path once: where and when it was put there. */
  datatype Version = Version(entry: Entry, home: Path, stamp: nat)

  type Tree = map<Path, Version>

  /** What the outside does before one step of the helper: edits of target
      paths (None deletes), whether the step fails or an interrupt is pending,
      and the identity a file created now would get. */
  datatype Beat = Beat(edits: map<string, Option<Entry>>, fails: bool, interrupted: bool, inode: nat)

  const CALM := Beat(map[], false, false, 0)

  function Next(script: seq<Beat>): Beat {
    if script == [] then CALM else script[0]
  }

  function Rest(script: seq<Beat>): seq<Beat> {
    if script == [] then [] else script[1..]
  }

  predicate Quiet(script: seq<Beat>) {
    forall b <- script :: b.edits == map[]
  }

  /** Nobody edits, nothing fails, nobody interrupts. */
  predicate Smooth(script: seq<Beat>) {
    forall b <- script :: b.edits == map[] && !b.fails && !b.interrupted
  }

  lemma {:induction false} SmoothIsQuiet(script: seq<Beat>)
    ensures Smooth(script) ==> Quiet(script)
  {
  }

  /** The path holds exactly the file of the snapshot. */
  predicate Holds(files: Tree, p: Path, s: Snapshot) {
    p in files && files[p].entry == Regular(s.inode, s.bytes)
  }

  function ReadAt(files: Tree, p: Path): Result<Option<Snapshot>, ()> {
    if p !in files then Ok(None)
    else match files[p].entry
      case Regular(inode, bytes) => Ok(Some(Snapshot(inode, bytes)))
      case Special(_, _) => Err(())
  }

  ghost predicate Injective(files: Tree) {
    forall p, q :: p in files && q in files && files[p] == files[q] ==> p == q
  }

  predicate SameAt(before: Tree, after: Tree, p: Path) {
    (p in before <==> p in after) && (p in before ==> before[p] == after[p])
  }

  /** What an editor may have done to one path. */
  predicate EditedAt(before: Tree, after: Tree, p: Path) {
    SameAt(before, after, p) || (p.Target? && (p in after ==> after[p].home == p))
  }

  ghost predicate OnlyEdited(before: Tree, after: Tree, beside: set<Path>) {
    forall p :: p !in beside ==> EditedAt(before, after, p)
  }

  ghost predicate Unmoved(before: Tree, after: Tree, beside: set<Path>) {
    forall p: Path :: p.Target? && p !in beside ==> SameAt(before, after, p)
  }

  function Edited(files: Tree, edits: map<string, Option<Entry>>, clock: nat): (after: Tree)
    ensures OnlyEdited(files, after, {})
    ensures edits == map[] ==> after == files
  {
    var names := set name | name in edits :: Target(name);
    map p | p in files.Keys + names && (p.Target? && p.name in edits ==> edits[p.name].Some?) ::
      if p.Target? && p.name in edits then Version(edits[p.name].value, p, clock) else files[p]
  }

  /** The project as the helper meets it: the paths, and what the outside will do. */
  datatype Disk = Disk(files: Tree, script: seq<Beat>, clock: nat)

  /** The outside moves. */
  function Moved(d: Disk): Disk {
    Disk(Edited(d.files, Next(d.script).edits, d.clock), Rest(d.script), d.clock + 1)
  }

  /** A new file, if the name is free once the outside has moved. */
  function Created(d: Disk, p: Path, bytes: Content): Disk {
    var m := Moved(d);
    if Next(d.script).fails || p in m.files then m
    else Disk(m.files[p := Version(Regular(Next(d.script).inode, bytes), p, m.clock)], m.script, m.clock + 1)
  }

  /** Nothing happens at the next move, nor later. */
  lemma {:induction false} MovedSmooth(d: Disk)
    requires Smooth(d.script)
    ensures Moved(d).files == d.files && Smooth(Moved(d).script) && !Next(d.script).fails
  {
    if d.script != [] { assert d.script[0] in d.script; }
  }

  class World {
    var files: Tree
    var script: seq<Beat>
    /** Every version ever put somewhere, and those put aside by an editor
        writing over them or by the helper unlinking them. */
    ghost var placed: set<Version>
    ghost var overwritten: set<Version>
    ghost var removed: set<Version>
    var clock: nat

    constructor (files: Tree, script: seq<Beat>)
      requires forall p :: p in files ==> files[p].home == p && files[p].stamp == 0
      ensures this.files == files && this.script == script && Valid()
      ensures placed == files.Values && overwritten == {} && removed == {}
    {
      this.files, this.script, clock := files, script, 1;
      placed, overwritten, removed := files.Values, {}, {};
    }

    /** Nothing vanishes: a version is still at one path, written over by an
        editor, or unlinked by the helper. */
    ghost predicate Valid()
      reads this
    {
      && placed == files.Values + overwritten + removed && files.Values !! overwritten + removed
      && (forall v <- placed :: v.stamp < clock)
      && Injective(files)
    }

    twostate predicate Kept()
      reads this
    {
      && Valid() && placed >= old(placed) && overwritten >= old(overwritten)
      && (Quiet(old(script)) ==> Quiet(script)) && (Smooth(old(script)) ==> Smooth(script))
      && (Quiet(old(script)) || Smooth(old(script)) ==> overwritten == old(overwritten))
    }

    function Now(): Disk
      reads this
    {
      Disk(files, script, clock)
    }

    /** What the paths hold once the outside has moved. */
    function Met(): Tree
      reads this
    {
      Moved(Now()).files
    }

    /** Nobody but an editor changed anything. */
    twostate predicate Watched()
      reads this
    {
      && Kept() && removed == old(removed) && OnlyEdited(old(files), files, {})
      && (Quiet(old(script)) || Smooth(old(script)) ==> files == old(files))
    }

    /** The outside moves first. */
    method Step() returns (beat: Beat)
      requires Valid()
      modifies this
      ensures Watched() && beat == Next(old(script)) && Now() == old(Moved(Now()))
    {
      beat := Next(script);
      var after := Met();
      EditedValues(files, beat.edits, clock);
      script := Rest(script);
      overwritten := overwritten + (files.Values - after.Values);
      placed := placed + after.Values;
      files, clock := after, clock + 1;
    }

    /** A read of a regular file without following links. */
    method Read(p: Path) returns (r: Result<Option<Snapshot>, ()>)
      requires Valid()
      modifies this
      ensures Watched() && Now() == old(Moved(Now()))
      ensures r == if Next(old(script)).fails then Err(()) else ReadAt(files, p)
      ensures Smooth(old(script)) ==> r == ReadAt(files, p)
      ensures r.Ok? && r.value.None? ==> p !in files
      ensures r.Ok? && r.value.Some? ==> Holds(files, p, r.value.value)
    {
      var beat := Step();
      if beat.fails { return Err(()); }
      r := ReadAt(files, p);
    }

    method Unchanged(p: Path, s: Snapshot) returns (same: bool)
      requires Valid()
      modifies this
      ensures Watched() && Now() == old(Moved(Now()))
      ensures same <==> !Next(old(script)).fails && Holds(files, p, s)
      ensures Smooth(old(script)) ==> (same <==> Holds(files, p, s))
    {
      var current := Read(p);
      same := current == Ok(Some(s));
    }

    /** Two names trade what they hold, or nothing happens. */
    method Exchange(a: Path, b: Path) returns (ok: bool, ghost met: Tree)
      requires Valid() && a != b
      modifies this
      ensures Kept() && removed == old(removed) && met == old(Met()) && OnlyEdited(old(files), met, {})
      ensures Now() == old(Moved(Now())).(files := files)
      ensures ok <==> !Next(old(script)).fails && a in met && b in met
      ensures ok ==> files == met[a := met[b]][b := met[a]]
      ensures !ok ==> files == met
      ensures Quiet(old(script)) || Smooth(old(script)) ==> met == old(files)
      ensures Smooth(old(script)) ==> (ok <==> a in met && b in met)
    {
      hide Edited, Injective, OnlyEdited;
      var beat := Step();
      met := files;
      ok := !beat.fails && a in files && b in files;
      if ok {
        SwapValues(met, a, b);
        files := files[a := files[b]][b := files[a]];
      }
    }

    /** A temporary file; a name already in use is an error. */
    method Create(p: Path, bytes: Content) returns (ok: bool)
      requires Valid() && p.Staging?
      modifies this
      ensures Kept() && removed == old(removed) && OnlyEdited(old(files), files, {p})
      ensures Quiet(old(script)) ==> Unmoved(old(files), files, {p})
      ensures ok ==> p in files && files[p].home == p && files[p].entry.Regular? && files[p].entry.bytes == bytes
      ensures !ok ==> OnlyEdited(old(files), files, {}) && (Quiet(old(script)) ==> files == old(files))
      ensures p in old(files) ==> !ok
      ensures Now() == old(Created(Now(), p, bytes)) && (ok <==> !Next(old(script)).fails && p !in old(Met()))
      ensures Smooth(old(script)) && p !in old(files) ==> ok
    {
      hide Edited;
      var beat := Step();
      ghost var before := files;
      assert EditedAt(old(files), before, p);
      ok := !beat.fails && p !in files;
      if ok {
        Put(p, Version(Regular(beat.inode, bytes), p, clock));
        OnlyThere(old(files), before, files, p);
      }
    }

    method Put(p: Path, v: Version)
      requires Valid() && p !in files && v.stamp == clock
      modifies `files, `placed, `clock
      ensures Valid() && files == old(files)[p := v] && placed == old(placed) + {v} && clock == old(clock) + 1
    {
      AddValue(files, p, v);
      files, placed, clock := files[p := v], placed + {v}, clock + 1;
    }

    method Remove(p: Path)
      requires Valid() && p in files
      modifies `files, `removed
      ensures Valid() && files == old(files) - {p} && removed == old(removed) + {old(files)[p]}
    {
      DropValue(files, p);
      removed := removed + {files[p]};
      files := files - {p};
    }

    /** Unlinking a temporary file; a failure leaves it where it is. */
    method Unlink(p: Path)
      requires Valid() && p.Staging? && p in files
      modifies this
      ensures Kept() && OnlyEdited(old(files), files, {p}) && (p in files ==> files[p] == old(files)[p])
      ensures Quiet(old(script)) ==> Unmoved(old(files), files, {p})
      ensures removed == old(removed) + if p in files then {} else {old(files)[p]}
      ensures p in files <==> Next(old(script)).fails
      ensures Smooth(old(script)) ==> p !in files
      ensures Now() == old(Moved(Now())).(files := if Next(old(script)).fails then old(Met()) else old(Met()) - {p})
    {
      hide Edited, Injective;
      var beat := Step();
      ghost var before := files;
      assert EditedAt(old(files), before, p);
      assert p in before && before[p] == old(files)[p];
      if !beat.fails { Remove(p); }
      OnlyThere(old(files), before, files, p);
    }
  }

  /** What an edit places is new; the rest is what was there. */
  lemma {:induction false} EditedValues(files: Tree, edits: map<string, Option<Entry>>, clock: nat)
    requires Injective(files) && forall v <- files.Values :: v.stamp < clock
    ensures var after := Edited(files, edits, clock);
      Injective(after) && forall v <- after.Values :: v in files.Values || v.stamp == clock
  {
    var after := Edited(files, edits, clock);
    forall p | p in after ensures after[p] in files.Values || (after[p].stamp == clock && after[p].home == p) {
      assert p in files && after[p] == files[p] ==> after[p] in files.Values;
    }
    forall p, q | p in after && q in after && after[p] == after[q] ensures p == q {
      if p in files && after[p] == files[p] { assert after[p] in files.Values; }
      if q in files && after[q] == files[q] { assert after[q] in files.Values; }
    }
  }

  /** A change at one name after some edits. */
  lemma {:induction false} OnlyThere(a: Tree, b: Tree, c: Tree, p: Path)
    requires OnlyEdited(a, b, {}) && forall q :: q != p ==> SameAt(b, c, q)
    ensures OnlyEdited(a, c, {p}) && (Unmoved(a, b, {}) ==> Unmoved(a, c, {p}))
  {
    forall q | q != p ensures EditedAt(a, c, q) && (Unmoved(a, b, {}) && q.Target? ==> SameAt(a, c, q)) {
      assert SameAt(b, c, q) && EditedAt(a, b, q);
    }
  }

  lemma {:induction false} AddValue(files: Tree, p: Path, v: Version)
    requires p !in files && v !in files.Values && Injective(files)
    ensures files[p := v].Values == files.Values + {v} && Injective(files[p := v])
  {
    var after := files[p := v];
    forall q | q in files ensures after[q] != v { assert files[q] in files.Values; }
    forall w ensures w in after.Values <==> w in files.Values + {v} {
      if w in files.Values {
        var q :| q in files && files[q] == w;
        assert after[q] == w;
      }
      assert after[p] == v;
    }
  }

  lemma {:induction false} DropValue(files: Tree, p: Path)
    requires p in files && Injective(files)
    ensures (files - {p}).Values + {files[p]} == files.Values
    ensures Injective(files - {p}) && files[p] !in (files - {p}).Values
  {
    forall w | w in files.Values ensures w in (files - {p}).Values + {files[p]} {
      var q :| q in files && files[q] == w;
      assert q != p ==> (files - {p})[q] == w;
    }
  }

  lemma {:induction false} SwapValues(files: Tree, a: Path, b: Path)
    requires a in files && b in files && Injective(files)
    ensures files[a := files[b]][b := files[a]].Values == files.Values
    ensures Injective(files[a := files[b]][b := files[a]])
  {
    var after := files[a := files[b]][b := files[a]];
    forall p, q | p in after && q in after && after[p] == after[q] ensures p == q {
      var p', q' := if p == a then b else if p == b then a else p, if q == a then b else if q == b then a else q;
      assert files[p'] == files[q'];
    }
    forall v ensures v in after.Values <==> v in files.Values {
      if v in files.Values {
        var p :| p in files && files[p] == v;
        assert after[if p == a then b else if p == b then a else p] == v;
      }
    }
  }
}
