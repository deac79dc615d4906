/** Snapshots and rollback (patchi/core/snapshot.py) on a file system that is a
    map from normalised path to decoded text. Snapshot records live in their own
    directory, apart from the tracked files, and JSON encoding is faithful. */
module Snapshot {
  import opened Common

  type Path = string
  type Text = string
  type Files = map<Path, Text>
  type Id = string

  /** One item of the record's "files" dict; None for a file that did not exist. */
  datatype Entry = Entry(path: Path, original: Option<Text>)

  datatype Record = Record(id: Id, patchId: Id, created: int, files: seq<Entry>)

  function Get(d: Files, p: Path): Option<Text> { if p in d then Some(d[p]) else None }

  lemma SameLookupsSameFiles(d: Files, e: Files)
    requires forall q :: Get(d, q) == Get(e, q)
    ensures d == e
  {
    assert forall q :: q in d <==> Get(d, q).Some?;
    assert forall q :: q in e <==> Get(e, q).Some?;
    forall q | q in d ensures d[q] == e[q] { assert Get(d, q) == Get(e, q); }
  }

  // ---- create ----

  function Paths(files: seq<Entry>): set<Path> { set i | 0 <= i < |files| :: files[i].path }

  function PathSet(paths: seq<Path>): set<Path> { set p | p in paths }

  /** Keys of a dict are distinct. */
  ghost predicate IsDict(files: seq<Entry>) {
    forall i, j :: 0 <= i < j < |files| ==> files[i].path != files[j].path
  }

  /** files[path] = original, on an insertion-ordered dict. */
  function Put(files: seq<Entry>, e: Entry): seq<Entry> {
    if files == [] then [e]
    else if files[0].path == e.path then [e] + files[1..]
    else [files[0]] + Put(files[1..], e)
  }

  /** The entries say what the disk held for exactly these paths. */
  ghost predicate Captures(files: seq<Entry>, d: Files, paths: set<Path>) {
    && IsDict(files)
    && Paths(files) == paths
    && forall i :: 0 <= i < |files| ==> files[i].original == Get(d, files[i].path)
  }

  lemma CapturesTail(files: seq<Entry>, d: Files)
    requires files != [] && Captures(files, d, Paths(files))
    ensures Captures(files[1..], d, Paths(files[1..]))
    ensures files[0].path !in Paths(files[1..]) && Paths(files) == {files[0].path} + Paths(files[1..])
  {
    assert files == [files[0]] + files[1..];
    ConsPaths(files[0], files[1..]);
  }

  lemma CapturesCons(e: Entry, rest: seq<Entry>, d: Files)
    requires Captures(rest, d, Paths(rest)) && e.path !in Paths(rest) && e.original == Get(d, e.path)
    ensures Captures([e] + rest, d, {e.path} + Paths(rest))
  {
    ConsPaths(e, rest);
  }

  lemma {:induction false} PutCaptures(files: seq<Entry>, e: Entry, d: Files, paths: set<Path>)
    requires Captures(files, d, paths) && e.original == Get(d, e.path)
    ensures Captures(Put(files, e), d, paths + {e.path})
  {
    if files == [] {
      CapturesCons(e, [], d);
      assert [e] + [] == [e];
    } else {
      CapturesTail(files, d);
      if files[0].path == e.path {
        CapturesCons(e, files[1..], d);
      } else {
        PutCaptures(files[1..], e, d, Paths(files[1..]));
        CapturesCons(files[0], Put(files[1..], e), d);
      }
    }
  }

  lemma ConsPaths(e: Entry, rest: seq<Entry>)
    ensures Paths([e] + rest) == {e.path} + Paths(rest)
    ensures forall j :: 0 <= j < |rest| ==> rest[j].path in Paths(rest)
  {
    var all := [e] + rest;
    assert all[0] == e;
    forall j | 0 <= j < |rest| ensures rest[j].path in Paths(all) { assert all[j + 1] == rest[j]; }
  }

  // ---- restore, one file operation at a time ----

  /** with_suffix(suffix + ".rollback_tmp") appends to the file name. */
  function Tmp(p: Path): Path { p + ".rollback_tmp" }

  datatype FileOp = WriteText(path: Path, text: Text) | Replace(src: Path, dst: Path) | Unlink(path: Path)

  function Apply(d: Files, op: FileOp): Files {
    match op
    case WriteText(path, text) => d[path := text]
    case Replace(src, dst) => if src in d then (d - {src})[dst := d[src]] else d
    case Unlink(path) => d - {path}
  }

  function ApplyAll(d: Files, ops: seq<FileOp>): Files
    decreases ops
  {
    if ops == [] then d else ApplyAll(Apply(d, ops[0]), ops[1..])
  }

  function RestoreOne(e: Entry): seq<FileOp> {
    match e.original
    case None => [Unlink(e.path)]
    case Some(text) => [WriteText(Tmp(e.path), text), Replace(Tmp(e.path), e.path)]
  }

  function RestoreOps(files: seq<Entry>): seq<FileOp> {
    if files == [] then [] else RestoreOne(files[0]) + RestoreOps(files[1..])
  }

  /** The tmp names a restore uses. */
  function Tmps(files: seq<Entry>): set<Path> {
    set i | 0 <= i < |files| && files[i].original.Some? :: Tmp(files[i].path)
  }

  ghost predicate TmpDisjoint(files: seq<Entry>) {
    Paths(files) !! Tmps(files)
  }

  /** What a dict says about a path; None if the path is not a key. */
  function Tracked(files: seq<Entry>, q: Path): Option<Option<Text>> {
    if files == [] then None
    else if files[0].path == q then Some(files[0].original)
    else Tracked(files[1..], q)
  }

  lemma {:induction false} TrackedIsKey(files: seq<Entry>, q: Path)
    ensures Tracked(files, q).Some? <==> q in Paths(files)
    ensures forall i :: 0 <= i < |files| && IsDict(files) ==> Tracked(files, files[i].path) == Some(files[i].original)
  {
    if files != [] {
      assert files == [files[0]] + files[1..];
      ConsPaths(files[0], files[1..]);
      TrackedIsKey(files[1..], q);
      forall i | 0 <= i < |files| && IsDict(files)
        ensures Tracked(files, files[i].path) == Some(files[i].original)
      {
        if i > 0 { assert files[1..][i - 1] == files[i]; }
      }
    }
  }

  /** The disk a completed restore leaves, path by path. */
  function Restored(d: Files, files: seq<Entry>, q: Path): Option<Text> {
    if q in Paths(files) then (if Tracked(files, q).Some? then Tracked(files, q).value else None)
    else if q in Tmps(files) then None
    else Get(d, q)
  }

  lemma RestoreOneEffect(d: Files, e: Entry, ops: seq<FileOp>)
    ensures ApplyAll(d, RestoreOne(e) + ops) == ApplyAll(Put1(d, e), ops)
  {
    var all := RestoreOne(e) + ops;
    if e.original.None? {
      assert all[1..] == ops;
    } else {
      assert all[1..][1..] == ops;
      assert Tmp(e.path) != e.path;
      var d1 := Apply(d, all[0]);
      assert Apply(d1, all[1]) == Put1(d, e);
    }
  }

  /** The effect of restoring one file. */
  function Put1(d: Files, e: Entry): Files {
    match e.original
    case None => d - {e.path}
    case Some(text) => (d - {Tmp(e.path)})[e.path := text]
  }

  lemma ConsTmps(e: Entry, rest: seq<Entry>)
    ensures Tmps([e] + rest) == (if e.original.Some? then {Tmp(e.path)} else {}) + Tmps(rest)
  {
    var all := [e] + rest;
    assert all[0] == e;
    forall j | 0 <= j < |rest| && rest[j].original.Some? ensures Tmp(rest[j].path) in Tmps(all) {
      assert all[j + 1] == rest[j];
    }
  }

  /** The loop over the record restores every tracked path, whatever the order. */
  lemma {:induction false} RestoreEffect(d: Files, files: seq<Entry>)
    requires IsDict(files) && TmpDisjoint(files)
    ensures forall q :: Get(ApplyAll(d, RestoreOps(files)), q) == Restored(d, files, q)
    decreases files
  {
    if files != [] {
      var e, rest := files[0], files[1..];
      assert files == [e] + rest;
      ConsPaths(e, rest);
      ConsTmps(e, rest);
      RestoreOneEffect(d, e, RestoreOps(rest));
      RestoreEffect(Put1(d, e), rest);
      forall q ensures Get(ApplyAll(d, RestoreOps(files)), q) == Restored(d, files, q) {
        TrackedIsKey(files, q);
        TrackedIsKey(rest, q);
      }
    }
  }

  // ---- Crashes ----

  /** `d'` is a disk a crash can leave while `ops` run on `d`: between two
      operations, or inside a text write, when any prefix may have been written. */
  ghost predicate Crash(d: Files, ops: seq<FileOp>, d': Files)
    decreases ops
  {
    || d' == d
    || ( && ops != [] && ops[0].WriteText?
         && exists n :: 0 <= n <= |ops[0].text| && d' == d[ops[0].path := ops[0].text[..n]])
    || (ops != [] && Crash(Apply(d, ops[0]), ops[1..], d'))
  }

  /** Each tracked path holds its text from before the restore or its snapshot text. */
  ghost predicate NothingTorn(d: Files, files: seq<Entry>, d': Files) {
    forall i :: 0 <= i < |files| ==>
      Get(d', files[i].path) == Get(d, files[i].path) || Get(d', files[i].path) == files[i].original
  }

  /** ... and no path but the tracked ones and their tmp names has changed. */
  ghost predicate Within(d: Files, files: seq<Entry>, d': Files) {
    && NothingTorn(d, files, d')
    && forall q :: q !in Paths(files) && q !in Tmps(files) ==> Get(d', q) == Get(d, q)
  }

  /** A crash while entries are being restored, seen from the first entry: only
      its tmp name is affected, or it is restored and the crash comes later. */
  lemma {:induction false} CrashInEntry(now: Files, e: Entry, rest: seq<FileOp>, d': Files)
    requires Crash(now, RestoreOne(e) + rest, d')
    ensures (forall q :: q != Tmp(e.path) ==> Get(d', q) == Get(now, q)) || Crash(Put1(now, e), rest, d')
    ensures e.original.None? && d' != now ==> Crash(Put1(now, e), rest, d')
  {
    var ops := RestoreOne(e) + rest;
    if e.original.None? {
      assert ops[1..] == rest;
    } else {
      var written := Apply(now, ops[0]);
      assert ops[1..][1..] == rest && ops[1..][0] == Replace(Tmp(e.path), e.path);
      assert Tmp(e.path) != e.path;
      assert Apply(written, ops[1]) == Put1(now, e);
    }
  }

  lemma {:induction false} CrashIsWithin(d: Files, files: seq<Entry>, now: Files, k: nat, d': Files)
    requires IsDict(files) && TmpDisjoint(files) && k <= |files|
    requires Within(d, files, now)
    requires Crash(now, RestoreOps(files[k..]), d')
    ensures Within(d, files, d')
    decreases |files| - k
  {
    if k < |files| && d' != now {
      var e, next := files[k], Put1(now, files[k]);
      assert files[k..][0] == e && files[k..][1..] == files[k + 1..];
      CrashInEntry(now, e, RestoreOps(files[k + 1..]), d');
      if Crash(next, RestoreOps(files[k + 1..]), d') {
        OneStepWithin(d, files, now, k, next);
        CrashIsWithin(d, files, next, k + 1, d');
      } else {
        TmpStepWithin(d, files, now, k, d');
      }
    }
  }

  lemma TmpStepWithin(d: Files, files: seq<Entry>, now: Files, k: nat, next: Files)
    requires TmpDisjoint(files) && k < |files| && Within(d, files, now) && files[k].original.Some?
    requires forall q :: q != Tmp(files[k].path) ==> Get(next, q) == Get(now, q)
    ensures Within(d, files, next)
  {
    assert Tmp(files[k].path) in Tmps(files);
    forall i | 0 <= i < |files| ensures Get(next, files[i].path) == Get(now, files[i].path) {
      assert files[i].path in Paths(files);
    }
  }

  lemma OneStepWithin(d: Files, files: seq<Entry>, now: Files, k: nat, next: Files)
    requires IsDict(files) && TmpDisjoint(files) && k < |files| && Within(d, files, now)
    requires forall q ::
               q != files[k].path && (files[k].original.None? || q != Tmp(files[k].path)) ==>
                 Get(next, q) == Get(now, q)
    requires Get(next, files[k].path) == files[k].original
    ensures Within(d, files, next)
  {
    assert files[k].path in Paths(files);
    assert files[k].original.Some? ==> Tmp(files[k].path) in Tmps(files);
    forall i | 0 <= i < |files|
      ensures Get(next, files[i].path) == Get(d, files[i].path) || Get(next, files[i].path) == files[i].original
    {
      assert files[i].path in Paths(files);
    }
  }

  /** Disks reached by any number of interrupted restores of one record. */
  ghost predicate Restarts(files: seq<Entry>, ds: seq<Files>) {
    |ds| > 0 && forall i :: 0 < i < |ds| ==> Crash(ds[i - 1], RestoreOps(files), ds[i])
  }

  lemma {:induction false} RestartsWithin(files: seq<Entry>, ds: seq<Files>)
    requires IsDict(files) && TmpDisjoint(files) && Restarts(files, ds)
    ensures Within(ds[0], files, ds[|ds| - 1])
  {
    var n := |ds| - 1;
    if n > 0 {
      var front := ds[..n];
      assert Restarts(files, front);
      RestartsWithin(files, front);
      assert files[0..] == files;
      assert Crash(ds[n - 1], RestoreOps(files), ds[n]);
      CrashIsWithin(ds[n - 1], files, ds[n - 1], 0, ds[n]);
    }
  }

  /** Crash recovery: however often a restore is interrupted, every tracked path
      holds its original or its snapshot text, and running restore to the end
      from there gives the very disk an uninterrupted restore gives. */
  lemma RestoreIsCrashRecoverable(files: seq<Entry>, ds: seq<Files>)
    requires IsDict(files) && TmpDisjoint(files) && Restarts(files, ds)
    ensures NothingTorn(ds[0], files, ds[|ds| - 1])
    ensures ApplyAll(ds[|ds| - 1], RestoreOps(files)) == ApplyAll(ds[0], RestoreOps(files))
  {
    var last := ds[|ds| - 1];
    RestartsWithin(files, ds);
    RestoreEffect(last, files);
    RestoreEffect(ds[0], files);
    forall q ensures Get(ApplyAll(last, RestoreOps(files)), q) == Get(ApplyAll(ds[0], RestoreOps(files)), q) {
      TrackedIsKey(files, q);
    }
    SameLookupsSameFiles(ApplyAll(last, RestoreOps(files)), ApplyAll(ds[0], RestoreOps(files)));
  }

  lemma {:induction false} CrashLater(d: Files, ops: seq<FileOp>, more: seq<FileOp>, d': Files)
    requires Crash(ApplyAll(d, ops), more, d')
    ensures Crash(d, ops + more, d')
    decreases ops
  {
    if ops == [] {
      assert ops + more == more;
    } else {
      assert (ops + more)[1..] == ops[1..] + more;
      CrashLater(Apply(d, ops[0]), ops[1..], more, d');
    }
  }

  lemma Associate(a: seq<FileOp>, b: seq<FileOp>, c: seq<FileOp>)
    ensures a + (b + c) == (a + b) + c
  {
  }

  lemma {:induction false} RestoreOpsSplit(files: seq<Entry>, k: nat)
    requires k < |files|
    ensures RestoreOps(files) == RestoreOps(files[..k]) + (RestoreOne(files[k]) + RestoreOps(files[k + 1..]))
  {
    if k > 0 {
      RestoreOpsSplit(files[1..], k - 1);
      assert files[1..][..k - 1] == files[..k][1..] && files[1..][k..] == files[k + 1..];
      var more := RestoreOne(files[k]) + RestoreOps(files[k + 1..]);
      assert RestoreOps(files[..k]) == RestoreOne(files[0]) + RestoreOps(files[..k][1..]);
      Associate(RestoreOne(files[0]), RestoreOps(files[..k][1..]), more);
    } else {
      assert files[..0] == [];
    }
  }

  /** Crashes while entry k is being restored: an empty tmp file, or all done
      but the rest. */
  lemma {:induction false} CrashAt(d: Files, files: seq<Entry>, k: nat)
    requires k < |files| && files[k].original.Some?
    ensures var at := ApplyAll(d, RestoreOps(files[..k]));
            && Crash(d, RestoreOps(files), at[Tmp(files[k].path) := ""])
            && Crash(d, RestoreOps(files), Put1(at, files[k]))
  {
    var e := files[k];
    var before := RestoreOps(files[..k]);
    var rest := RestoreOne(e) + RestoreOps(files[k + 1..]);
    RestoreOpsSplit(files, k);
    var at := ApplyAll(d, before);
    assert rest[0] == WriteText(Tmp(e.path), e.original.value);
    assert rest[0].text[..0] == "";
    assert Crash(at, rest, at[Tmp(e.path) := ""]);
    CrashLater(d, before, rest, at[Tmp(e.path) := ""]);
    var written := Apply(at, rest[0]);
    var done := Put1(at, e);
    assert Tmp(e.path) != e.path;
    assert rest[1..][0] == Replace(Tmp(e.path), e.path);
    assert done == Apply(written, rest[1..][0]);
    assert Crash(done, rest[1..][1..], done);
    assert Crash(written, rest[1..], done);
    assert Crash(at, rest, done);
    CrashLater(d, before, rest, done);
  }

  /** A record that tracks the tmp name of one of its own files is not safe:
      some crash leaves that path with neither of its two legitimate contents. */
  lemma {:induction false} ClashTears(files: seq<Entry>, k: nat, i: nat) returns (d: Files, d': Files)
    requires k < |files| && files[k].original.Some?
    requires i < |files| && files[i].path == Tmp(files[k].path)
    ensures Crash(d, RestoreOps(files), d')
    ensures Get(d', files[i].path) != Get(d, files[i].path) && Get(d', files[i].path) != files[i].original
  {
    var q := files[i].path;
    d := map[q := "x"];
    CrashAt(d, files, k);
    var at := ApplyAll(d, RestoreOps(files[..k]));
    TmpGone(at, files[k]);
    d' := if files[i].original == Some("") then Put1(at, files[k]) else at[q := ""];
  }

  lemma TmpGone(d: Files, e: Entry)
    requires e.original.Some?
    ensures Get(Put1(d, e), Tmp(e.path)) == None
  {
    assert |Tmp(e.path)| > |e.path|;
  }

  /** Exactly the records whose tracked paths avoid their own tmp names are
      restored without ever showing a torn file. */
  lemma {:induction false} NeverTornIffTmpDisjoint(files: seq<Entry>)
    requires IsDict(files)
    ensures (forall d, d' :: Crash(d, RestoreOps(files), d') ==> NothingTorn(d, files, d')) <==> TmpDisjoint(files)
  {
    if TmpDisjoint(files) {
      forall d, d' | Crash(d, RestoreOps(files), d') ensures NothingTorn(d, files, d') {
        assert files[0..] == files;
        CrashIsWithin(d, files, d, 0, d');
      }
    } else {
      var q :| q in Paths(files) && q in Tmps(files);
      var k :| 0 <= k < |files| && files[k].original.Some? && Tmp(files[k].path) == q;
      var i :| 0 <= i < |files| && files[i].path == q;
      var d, d' := ClashTears(files, k, i);
      assert !NothingTorn(d, files, d');
    }
  }

  // ---- The operations on a workspace ----

  class Workspace {
    var files: Files
    var records: map<Id, Record>

    method Create(paths: seq<Path>, patchId: Id, id: Id, now: int) returns (snapshotId: Id)
      modifies this`records
      ensures snapshotId == id && id in records && records == old(records)[id := records[id]]
      ensures records[id].id == id && records[id].patchId == patchId && records[id].created == now
      ensures Captures(records[id].files, files, PathSet(paths))
    {
      var entries: seq<Entry> := [];
      var i := 0;
      while i < |paths|
        invariant 0 <= i <= |paths|
        invariant records == old(records)
        invariant Captures(entries, files, PathSet(paths[..i]))
      {
        var path := paths[i];
        var e := if path in files then Entry(path, Some(files[path])) else Entry(path, None);
        PutCaptures(entries, e, files, PathSet(paths[..i]));
        assert PathSet(paths[..i + 1]) == PathSet(paths[..i]) + {path} by {
          assert paths[..i + 1] == paths[..i] + [path];
        }
        entries := Put(entries, e);
        i := i + 1;
      }
      assert paths[..|paths|] == paths;
      records := records[id := Record(id, patchId, now, entries)];
      return id;
    }

    /** The body of the restore loop. */
    method RestoreFile(e: Entry)
      modifies this`files
      ensures files == Put1(old(files), e)
    {
      match e.original {
        case None =>
          if e.path in files { files := files - {e.path}; }
        case Some(text) =>
          var tmp := Tmp(e.path);
          assert tmp != e.path;
          files := files[tmp := text];
          files := (files - {tmp})[e.path := files[tmp]];
      }
    }

    /** None stands for the FileNotFoundError of an unknown snapshot. */
    method Restore(id: Id) returns (restored: Option<seq<Path>>)
      modifies this`files
      ensures id !in records ==> restored == None && files == old(files)
      ensures id in records ==> files == ApplyAll(old(files), RestoreOps(records[id].files))
      ensures id in records ==>
                && restored.Some? && |restored.value| == |records[id].files|
                && (forall i :: 0 <= i < |restored.value| ==> restored.value[i] == records[id].files[i].path)
    {
      if id !in records {
        return None;
      }
      var entries := records[id].files;
      var paths: seq<Path> := [];
      var i := 0;
      assert entries[0..] == entries;
      while i < |entries|
        invariant 0 <= i <= |entries| && |paths| == i
        invariant ApplyAll(files, RestoreOps(entries[i..])) == ApplyAll(old(files), RestoreOps(entries))
        invariant forall j :: 0 <= j < i ==> paths[j] == entries[j].path
      {
        var e := entries[i];
        assert entries[i..][0] == e && entries[i..][1..] == entries[i + 1..];
        RestoreOneEffect(files, e, RestoreOps(entries[i + 1..]));
        RestoreFile(e);
        paths := paths + [e.path];
        i := i + 1;
      }
      return Some(paths);
    }
  }

  // ---- Undoing a stack of patches ----

  /** A fix: it snapshots `paths` under `id` and then makes each of them hold
      what `edit` says (None deletes). It touches no other file. */
  datatype Patch = Patch(id: Id, paths: set<Path>, edit: map<Path, Option<Text>>)

  /** Every edited file holds what the edit says, or is gone where it says None;
      all others are as before. */
  lemma EditedMeans(d: Files, edit: map<Path, Option<Text>>, q: Path)
    ensures Get(Edited(d, edit), q) == if q in edit then edit[q] else Get(d, q)
  {
  }

  ghost predicate EditsOnlyItsFiles(p: Patch) { p.edit.Keys <= p.paths }

  function Edited(d: Files, edit: map<Path, Option<Text>>): Files {
    map q | q in d.Keys + edit.Keys && (if q in edit then edit[q].Some? else true)
      :: if q in edit then edit[q].value else d[q]
  }

  datatype State = State(files: Files, records: map<Id, seq<Entry>>)

  /** `b` follows from `a` by snapshotting and applying `p`. */
  ghost predicate Patched(a: State, p: Patch, b: State) {
    && p.id in b.records
    && b.records == a.records[p.id := b.records[p.id]]
    && Captures(b.records[p.id], a.files, p.paths)
    && b.files == Edited(a.files, p.edit)
  }

  function Undone(s: State, id: Id): State
    requires id in s.records
  {
    s.(files := ApplyAll(s.files, RestoreOps(s.records[id])))
  }

  /** Applying the patches in order and then restoring them in reverse order
      leads from `a` to `c`. */
  ghost predicate AppliedAndUndone(a: State, ps: seq<Patch>, c: State)
    decreases ps
  {
    if ps == [] then c == a
    else exists b, mid ::
      && Patched(a, ps[0], b)
      && AppliedAndUndone(b, ps[1..], mid)
      && ps[0].id in mid.records && c == Undone(mid, ps[0].id)
  }

  function AllPaths(ps: seq<Patch>): set<Path> {
    if ps == [] then {} else ps[0].paths + AllPaths(ps[1..])
  }

  function AllTmps(ps: seq<Patch>): set<Path> { set p | p in AllPaths(ps) :: Tmp(p) }

  /** The snapshot ids are new and differ from each other. */
  ghost predicate FreshIds(taken: set<Id>, ps: seq<Patch>) {
    && (forall i :: 0 <= i < |ps| ==> ps[i].id !in taken)
    && (forall i, j :: 0 <= i < j < |ps| ==> ps[i].id != ps[j].id)
  }

  lemma FreshTail(taken: set<Id>, ps: seq<Patch>)
    requires ps != [] && FreshIds(taken, ps)
    ensures FreshIds(taken + {ps[0].id}, ps[1..])
  {
  }

  /** Every file is as in `a`, except that tmp names may have gone. */
  ghost predicate BackTo(a: Files, tmps: set<Path>, c: Files) {
    && (forall q :: q !in tmps ==> Get(c, q) == Get(a, q))
    && (forall q :: q in tmps ==> Get(c, q) == Get(a, q) || Get(c, q) == None)
  }

  /** LIFO undo: every file that is not a tmp name of a tracked file is back to
      its original text or absence; tmp names are as they were or gone; and the
      only other trace is the new snapshot records. */
  lemma {:induction false} LifoUndo(a: State, ps: seq<Patch>, c: State)
    requires AppliedAndUndone(a, ps, c)
    requires FreshIds(a.records.Keys, ps) && AllPaths(ps) !! AllTmps(ps)
    requires forall i :: 0 <= i < |ps| ==> EditsOnlyItsFiles(ps[i])
    ensures BackTo(a.files, AllTmps(ps), c.files)
    ensures c.records.Keys == a.records.Keys + PatchIds(ps)
    ensures forall id :: id in a.records ==> c.records[id] == a.records[id]
    decreases ps
  {
    if ps != [] {
      var b, mid := Peel(a, ps, c);
      AllTmpsCons(ps);
      FreshTail(a.records.Keys, ps);
      LifoUndo(b, ps[1..], mid);
      UndoOne(a, ps, b, mid, c);
      PatchIdsCons(ps);
    }
  }

  /** The states around the inner patches. */
  lemma {:induction false} Peel(a: State, ps: seq<Patch>, c: State) returns (b: State, mid: State)
    requires ps != [] && AppliedAndUndone(a, ps, c)
    ensures Patched(a, ps[0], b) && AppliedAndUndone(b, ps[1..], mid)
    ensures ps[0].id in mid.records && c == Undone(mid, ps[0].id)
    ensures b.records.Keys == a.records.Keys + {ps[0].id}
    ensures forall id :: id in a.records && id != ps[0].id ==> b.records[id] == a.records[id]
  {
    b, mid :|
      && Patched(a, ps[0], b)
      && AppliedAndUndone(b, ps[1..], mid)
      && ps[0].id in mid.records && c == Undone(mid, ps[0].id);
  }

  function PatchIds(ps: seq<Patch>): set<Id> { set i | 0 <= i < |ps| :: ps[i].id }

  lemma AllTmpsCons(ps: seq<Patch>)
    requires ps != []
    ensures AllPaths(ps[1..]) <= AllPaths(ps) && AllTmps(ps[1..]) <= AllTmps(ps)
  {
  }

  lemma PatchIdsCons(ps: seq<Patch>)
    requires ps != []
    ensures PatchIds(ps) == {ps[0].id} + PatchIds(ps[1..])
  {
    forall i | 0 <= i < |ps| ensures ps[i].id in {ps[0].id} + PatchIds(ps[1..]) {
      if i > 0 { assert ps[i] == ps[1..][i - 1]; }
    }
    forall i | 0 <= i < |ps[1..]| ensures ps[1..][i].id in PatchIds(ps) { assert ps[1..][i] == ps[i + 1]; }
  }

  lemma UndoOne(a: State, ps: seq<Patch>, b: State, mid: State, c: State)
    requires ps != [] && AllPaths(ps) !! AllTmps(ps) && EditsOnlyItsFiles(ps[0])
    requires Patched(a, ps[0], b)
    requires ps[0].id in mid.records && mid.records[ps[0].id] == b.records[ps[0].id] && c == Undone(mid, ps[0].id)
    requires BackTo(b.files, AllTmps(ps[1..]), mid.files)
    ensures BackTo(a.files, AllTmps(ps), c.files)
  {
    AllTmpsCons(ps);
    var entries := b.records[ps[0].id];
    TmpsOfEntries(entries, ps);
    RestoreEffect(mid.files, entries);
    forall q
      ensures q !in AllTmps(ps) ==> Get(c.files, q) == Get(a.files, q)
      ensures q in AllTmps(ps) ==> Get(c.files, q) == Get(a.files, q) || Get(c.files, q) == None
    {
      TrackedIsKey(entries, q);
      if q in Paths(entries) {
        assert q in AllPaths(ps);
        var i :| 0 <= i < |entries| && entries[i].path == q;
        assert Tracked(entries, entries[i].path) == Some(entries[i].original);
      } else {
        assert Get(b.files, q) == Get(a.files, q);
      }
    }
  }

  lemma TmpsOfEntries(entries: seq<Entry>, ps: seq<Patch>)
    requires ps != [] && Paths(entries) == ps[0].paths && AllPaths(ps) !! AllTmps(ps)
    ensures Tmps(entries) <= AllTmps(ps) && TmpDisjoint(entries)
  {
    forall t | t in Tmps(entries) ensures t in AllTmps(ps) {
      var i :| 0 <= i < |entries| && entries[i].original.Some? && Tmp(entries[i].path) == t;
      assert entries[i].path in Paths(entries);
      assert entries[i].path in AllPaths(ps);
    }
  }
}
