// What undo is worth: version numbers that stay identifiers, and restores that give the
// bytes back.
module FsUndo {
  import opened Options
  import opened Paths
  import opened FsDb
  import opened FsTree
  import opened FsLocks
  import opened FsReaper

  // ---- numbers ----------------------------------------------------------------------------

  ghost predicate Ascending(h: seq<Version>) {
    forall i, j :: 0 <= i < j < |h| ==> h[i].no < h[j].no
  }

  ghost predicate Numbered(db: Db) {
    forall p :: p in db.history ==> Ascending(db.history[p])
  }

  // The highest number a path ever issued, as the box can still tell.
  function HighWater(cfg: Config, db: Db, p: string): nat { NextNo(cfg, db, p) - 1 }

  lemma {:induction false} SurvivorsAre(h: seq<Version>, p: string, reaper: Reaper)
    ensures forall v :: v in Survivors(h, p, reaper) <==> v in h && Spared(reaper, p, v.no)
    ensures h != [] && Spared(reaper, p, h[|h| - 1].no) ==>
              Survivors(h, p, reaper) != []
              && Survivors(h, p, reaper)[|Survivors(h, p, reaper)| - 1] == h[|h| - 1]
  {
    if h != [] {
      SurvivorsAre(h[..|h| - 1], p, reaper);
      assert h == h[..|h| - 1] + [h[|h| - 1]];
    }
  }

  lemma {:induction false} SurvivorsAscend(h: seq<Version>, p: string, reaper: Reaper)
    requires Ascending(h)
    ensures Ascending(Survivors(h, p, reaper))
  {
    hide Spared, ReapedMax;
    if h != [] {
      SurvivorsAscend(h[..|h| - 1], p, reaper);
      SurvivorsAre(h[..|h| - 1], p, reaper);
    }
  }

  lemma LastSurvivesOrIsRecorded(h: seq<Version>, p: string, reaper: Reaper)
    ensures LastNo(h) <= Max(LastNo(Survivors(h, p, reaper)), ReapedMax(h, p, reaper))
  {
    SurvivorsAre(h, p, reaper);
  }

  // Housekeeping keeps every number it does not destroy, and never lowers the next one, exactly
  // because the reaper leaves its high-water mark behind.
  lemma EvictKeepsNumbers(cfg: Config, db: Db, reaper: Reaper, p: string)
    requires Numbered(db)
    ensures Numbered(Evict(cfg, db, reaper))
    ensures forall v :: v in History(Evict(cfg, db, reaper), p) ==> v in History(db, p)
    ensures cfg.floorFn ==> HighWater(cfg, Evict(cfg, db, reaper), p) >= HighWater(cfg, db, p)
  {
    hide Survivors, ReapedMax;
    var after := Evict(cfg, db, reaper);
    forall q | q in after.history ensures Ascending(after.history[q]) { SurvivorsAscend(db.history[q], q, reaper); }
    if p in db.history {
      SurvivorsAre(db.history[p], p, reaper);
      LastSurvivesOrIsRecorded(db.history[p], p, reaper);
    }
  }

  // Without the mark, a path whose history is fully evicted starts over at 1.
  lemma EvictedPathRestarts(cfg: Config, p: string) returns (db: Db, reaper: Reaper)
    requires !cfg.floorFn
    ensures Numbered(db) && NextNo(cfg, db, p) == 2 && NextNo(cfg, Evict(cfg, db, reaper), p) == 1
  {
    var v := Version(1, Overwrite, [1], None);
    db, reaper := Db(map[], map[p := [v]], map[], 0), Reaped({(p, 1)});
    assert [v][..0] == [];
    assert Survivors([v], p, reaper) == [];
  }

  ghost predicate NumbersOnlyClimb(cfg: Config) {
    forall db: Db, reaper: Reaper, p: string {:trigger Evict(cfg, db, reaper), History(db, p)} ::
      Numbered(db) ==> NextNo(cfg, Evict(cfg, db, reaper), p) >= NextNo(cfg, db, p)
  }

  lemma NumbersClimbIffFloor(cfg: Config)
    ensures NumbersOnlyClimb(cfg) <==> cfg.floorFn
  {
    hide Survivors, ReapedMax;
    if cfg.floorFn {
      forall db: Db, reaper: Reaper, p: string | Numbered(db)
        ensures NextNo(cfg, Evict(cfg, db, reaper), p) >= NextNo(cfg, db, p)
      {
        EvictKeepsNumbers(cfg, db, reaper, p);
      }
    } else {
      var db, reaper := EvictedPathRestarts(cfg, "/shared/a");
      assert History(db, "/shared/a") == History(db, "/shared/a");
    }
  }

  // Between two states of one path: numbers climb, and whatever is new is numbered above all that was.
  ghost predicate Continues(cfg: Config, before: Db, after: Db, p: string) {
    && HighWater(cfg, after, p) >= HighWater(cfg, before, p)
    && forall v :: v in History(after, p) ==> v in History(before, p) || v.no > HighWater(cfg, before, p)
  }

  lemma ContinuesAcross(cfg: Config, a: Db, b: Db, c: Db, p: string)
    requires Continues(cfg, a, b, p) && Continues(cfg, b, c, p)
    ensures Continues(cfg, a, c, p)
  {
    hide HighWater;
  }

  lemma {:induction false} NoAboveLast(h: seq<Version>, v: Version)
    requires Ascending(h) && v in h
    ensures v.no <= LastNo(h)
  {
  }

  lemma PushContinues(cfg: Config, db: Db, p: string, v: Version, q: string)
    requires Numbered(db) && v.no == NextNo(cfg, db, p)
    ensures Numbered(Push(db, p, v)) && Continues(cfg, db, Push(db, p, v), q)
  {
    var h := History(db, p);
    assert Ascending(h + [v]) by {
      forall i | 0 <= i < |h| ensures h[i].no < v.no { if p in db.history { NoAboveLast(h, h[i]); } }
    }
    var after := Push(db, p, v);
    forall x | x in History(after, q) ensures x in History(db, q) || x.no > HighWater(cfg, db, q) {}
  }

  lemma EvictContinues(cfg: Config, db: Db, reaper: Reaper, q: string)
    requires Numbered(db) && cfg.floorFn
    ensures Numbered(Evict(cfg, db, reaper)) && Continues(cfg, db, Evict(cfg, db, reaper), q)
  {
    hide Evict, HighWater;
    EvictKeepsNumbers(cfg, db, reaper, q);
  }

  lemma SnapshotContinues(cfg: Config, db: Db, p: string, force: bool, next: Option<Bytes>, reaper: Reaper, q: string)
    requires Numbered(db) && cfg.floorFn
    ensures var after := SnapshotOverwrite(cfg, db, p, force, next, reaper).0;
            Numbered(after) && Continues(cfg, db, after, q)
  {
    hide Evict, Push, TakesSnapshot, NextNo, Continues, Numbered;
    if TakesSnapshot(cfg, db, p, force, next) {
      TakingIsOfAFile(cfg, db, p, force, next);
      var v := Version(NextNo(cfg, db, p), Overwrite, db.entries[p].content, db.entries[p].mime);
      PushContinues(cfg, db, p, v, q);
      EvictContinues(cfg, Push(db, p, v), reaper, q);
      ContinuesAcross(cfg, db, Push(db, p, v), Evict(cfg, Push(db, p, v), reaper), q);
    } else {
      SameContinues(cfg, db, db, q);
    }
  }

  lemma TakingIsOfAFile(cfg: Config, db: Db, p: string, force: bool, next: Option<Bytes>)
    requires TakesSnapshot(cfg, db, p, force, next)
    ensures p in db.entries
  {
  }

  lemma SameContinues(cfg: Config, db: Db, after: Db, q: string)
    requires after.history == db.history && after.floors == db.floors
    ensures Continues(cfg, db, after, q)
  {
  }

  // The trash rows of an rm, before housekeeping.
  function Trashed(cfg: Config, db: Db, files: set<string>): Db
    requires forall p :: p in files ==> p in db.entries
  {
    db.(history := map p | p in db.history.Keys + files ::
      if p in files
      then History(db, p) + [Version(NextNo(cfg, db, p), Deletion, db.entries[p].content, db.entries[p].mime)]
      else db.history[p])
  }

  lemma TrashedContinues(cfg: Config, db: Db, files: set<string>, q: string)
    requires Numbered(db) && forall p :: p in files ==> p in db.entries
    ensures Numbered(Trashed(cfg, db, files)) && Continues(cfg, db, Trashed(cfg, db, files), q)
  {
    hide NextNo, Continues, HighWater;
    var after := Trashed(cfg, db, files);
    forall p | p in after.history ensures Ascending(after.history[p]) && Continues(cfg, db, after, p) {
      if p in files {
        var v := Version(NextNo(cfg, db, p), Deletion, db.entries[p].content, db.entries[p].mime);
        PushContinues(cfg, db, p, v, p);
        SameHistoryContinues(cfg, db, Push(db, p, v), after, p);
        assert Push(db, p, v).history[p] == after.history[p];
      } else {
        SameHistoryContinues(cfg, db, db, after, p);
      }
    }
    if q !in after.history { SameHistoryContinues(cfg, db, db, after, q); }
  }

  lemma SameHistoryContinues(cfg: Config, db: Db, a: Db, b: Db, p: string)
    requires History(a, p) == History(b, p) && a.floors == b.floors
    ensures Continues(cfg, db, a, p) ==> Continues(cfg, db, b, p)
    ensures Continues(cfg, a, b, p)
  {
  }

  lemma RemovedContinues(cfg: Config, db: Db, files: set<string>, reaper: Reaper, q: string)
    requires Numbered(db) && cfg.floorFn && forall p :: p in files ==> p in db.entries
    ensures var after := SnapshotRemoved(cfg, db, files, reaper).0;
            Numbered(after) && Continues(cfg, db, after, q)
  {
    hide Evict, NextNo, Continues, Numbered;
    var t := Trashed(cfg, db, files);
    TrashedContinues(cfg, db, files, q);
    EvictContinues(cfg, t, reaper, q);
    ContinuesAcross(cfg, db, t, Evict(cfg, t, reaper), q);
  }

  // Only the snapshot stage of a transaction touches the version tables.
  ghost predicate SameVersions(a: Db, b: Db) { a.history == b.history && a.floors == b.floors }

  lemma PlaceSameVersions(cfg: Config, db: Db, p: string, content: Bytes, mime: string, keepMime: bool)
    ensures Place(cfg, db, p, content, mime, keepMime).Ok? ==>
              SameVersions(Place(cfg, db, p, content, mime, keepMime).value, db)
  {
    hide MkdirChain, PutFile, ParentOf;
  }

  lemma ExtendSameVersions(cfg: Config, db: Db, p: string, bytes: Bytes)
    ensures Extend(cfg, db, p, bytes).Ok? ==> SameVersions(Extend(cfg, db, p, bytes).value, db)
  {
    hide MkdirChain, PutFile, ParentOf;
  }

  // The snapshot stage of a call: none, one overwritten file, or the files a removal takes.
  datatype Stage =
    | NoStage
    | OneFile(path: string, force: bool, next: Option<Bytes>, reaper: Reaper)
    | Trash(files: set<string>, reaper: Reaper)

  ghost predicate StageOk(db: Db, s: Stage) { s.Trash? ==> s.files <= db.entries.Keys }

  ghost function Staged(cfg: Config, db: Db, s: Stage): Db
    requires StageOk(db, s)
  {
    match s
    case NoStage => db
    case OneFile(p, force, next, reaper) => SnapshotOverwrite(cfg, db, p, force, next, reaper).0
    case Trash(files, reaper) => SnapshotRemoved(cfg, db, files, reaper).0
  }

  lemma StagedContinues(cfg: Config, db: Db, s: Stage, after: Db, q: string)
    requires Numbered(db) && cfg.floorFn && StageOk(db, s) && SameVersions(after, Staged(cfg, db, s))
    ensures Numbered(after) && Continues(cfg, db, after, q)
  {
    hide SnapshotOverwrite, SnapshotRemoved, HighWater, History;
    match s {
      case NoStage => SameContinues(cfg, db, db, q);
      case OneFile(p, force, next, reaper) => SnapshotContinues(cfg, db, p, force, next, reaper, q);
      case Trash(files, reaper) => RemovedContinues(cfg, db, files, reaper, q);
    }
    SameContinues(cfg, Staged(cfg, db, s), after, q);
    ContinuesAcross(cfg, db, Staged(cfg, db, s), after, q);
  }

  lemma WriteStage(cfg: Config, db: Db, ctx: Ctx, p: string, bytes: Bytes, mime: Option<string>, reaper: Reaper)
    requires Write(cfg, db, ctx, p, bytes, mime, reaper).Ok?
    ensures SameVersions(Write(cfg, db, ctx, p, bytes, mime, reaper).value,
                         Staged(cfg, db, OneFile(p, false, Some(bytes), reaper)))
  {
    hide Place, SnapshotOverwrite, AssertWritable, AssertNotLocked;
    var declared := Essence(cfg, mime);
    PlaceSameVersions(cfg, SnapshotOverwrite(cfg, db, p, false, Some(bytes), reaper).0, p, bytes,
                      MimeOr(cfg, declared, p), declared.None?);
  }

  lemma AppendStage(cfg: Config, db: Db, ctx: Ctx, p: string, bytes: Bytes, reaper: Reaper)
    requires Append(cfg, db, ctx, p, bytes, reaper).Ok?
    ensures SameVersions(Append(cfg, db, ctx, p, bytes, reaper).value,
                         Staged(cfg, db, if |bytes| > 0 then OneFile(p, false, None, reaper) else NoStage))
  {
    hide Extend, SnapshotOverwrite, AssertWritable, AssertNotLocked;
    ExtendSameVersions(cfg, if |bytes| > 0 then SnapshotOverwrite(cfg, db, p, false, None, reaper).0 else db, p, bytes);
  }

  lemma RestoreStage(cfg: Config, db: Db, ctx: Ctx, p: string, named: Option<int>, reaper: Reaper) returns (s: Stage)
    requires Restore(cfg, db, ctx, p, named, reaper).Ok?
    ensures StageOk(db, s) && SameVersions(Restore(cfg, db, ctx, p, named, reaper).value.db, Staged(cfg, db, s))
    ensures p !in db.entries ==> s.NoStage?
  {
    hide Place, SnapshotOverwrite, AssertWritable, AssertNotLocked, Selected;
    var live := if p in db.entries then Some(db.entries[p].content) else None;
    var v := Selected(History(db, p), live, named).value;
    s := if live.Some? then OneFile(p, true, Some(v.content), reaper) else NoStage;
    PlaceSameVersions(cfg, Staged(cfg, db, s), p, v.content, MimeOr(cfg, Essence(cfg, v.mime), p), false);
  }

  lemma RmStage(cfg: Config, db: Db, ctx: Ctx, p: string, recursive: bool, reaper: Reaper)
    requires Rm(cfg, db, ctx, p, recursive, reaper).Ok?
    ensures var s := Trash(FilesOf(db.entries, Doomed(db.entries, p, recursive)), reaper);
            SameVersions(Rm(cfg, db, ctx, p, recursive, reaper).value.db, Staged(cfg, db, s))
  {
    hide SnapshotRemoved, AssertWritable, AssertNotLocked, Total, HasChild;
  }

  lemma RenameStage(cfg: Config, db: Db, ctx: Ctx, f: string, t: string, reaper: Reaper)
    requires Rename(cfg, db, ctx, f, t, reaper).Ok?
    ensures var s := if t in db.entries && f != t then Trash({t}, reaper) else NoStage;
            SameVersions(Rename(cfg, db, ctx, f, t, reaper).value, Staged(cfg, db, s))
  {
    hide SnapshotRemoved, AssertWritable, AssertNotLocked, MkdirChain, Moved, Unmoved, ParentOf, Under;
  }

  lemma ApplyStage(cfg: Config, db: Db, c: Call) returns (s: Stage)
    ensures StageOk(db, s) && SameVersions(Apply(cfg, db, c), Staged(cfg, db, s))
  {
    hide Write, Append, Rm, Rename, Restore, NormalizeFsPath, SnapshotOverwrite, SnapshotRemoved, MkdirChain,
         AssertWritable, AssertNotLocked;
    s := NoStage;
    if NormalizeFsPath(c.op.path).Some? {
      var p := NormalizeFsPath(c.op.path).value;
      if Attempt(cfg, db, c, p).Ok? {
        match c.op
        case OpWrite(_, bytes, mime, reaper) =>
          WriteStage(cfg, db, c.ctx, p, bytes, mime, reaper);
          s := OneFile(p, false, Some(bytes), reaper);
        case OpAppend(_, bytes, reaper) =>
          AppendStage(cfg, db, c.ctx, p, bytes, reaper);
          s := if |bytes| > 0 then OneFile(p, false, None, reaper) else NoStage;
        case OpRm(_, recursive, reaper) =>
          RmStage(cfg, db, c.ctx, p, recursive, reaper);
          s := Trash(FilesOf(db.entries, Doomed(db.entries, p, recursive)), reaper);
        case OpRename(_, to, reaper) =>
          var t := NormalizeFsPath(to).value;
          RenameStage(cfg, db, c.ctx, p, t, reaper);
          s := if t in db.entries && p != t then Trash({t}, reaper) else NoStage;
        case OpRestore(_, named, reaper) =>
          s := RestoreStage(cfg, db, c.ctx, p, named, reaper);
        case _ =>
      }
    }
  }

  // A number once issued for a path means the same snapshot for ever: whatever any later state
  // holds under it, the path already held.
  lemma {:induction false} VersionsAreIdentifiers(cfg: Config, db: Db, calls: seq<Call>, p: string)
    requires Numbered(db) && cfg.floorFn
    ensures Numbered(Run(cfg, db, calls)) && Continues(cfg, db, Run(cfg, db, calls), p)
    decreases |calls|
  {
    hide Apply, Staged, Continues, Numbered;
    if calls == [] {
      SameContinues(cfg, db, db, p);
    } else {
      var next := Apply(cfg, db, calls[0]);
      var s := ApplyStage(cfg, db, calls[0]);
      StagedContinues(cfg, db, s, next, p);
      VersionsAreIdentifiers(cfg, next, calls[1..], p);
      ContinuesAcross(cfg, db, next, Run(cfg, db, calls), p);
    }
  }

  // ---- undoing an overwrite -------------------------------------------------------------------

  lemma {:induction false} ChainOfPresent(entries: map<string, Row>, p: string)
    requires Tree(entries) && p in entries && p != "/"
    ensures MkdirChain(entries, ParentOf(p)) == Ok(entries)
    decreases |p|
  {
    hide IsPath, ParentOf, BaseName, FixedRoot;
    TreeRow(entries, p);
    PathParts(p);
    var d := ParentOf(p);
    if !FixedRoot(d) {
      NotRoot(d);
      ChainOfPresent(entries, d);
    }
  }

  // A whole-file write over a live file changes that one row's bytes and nothing else.
  ghost predicate Rewritten(before: map<string, Row>, after: map<string, Row>, p: string, content: Bytes) {
    && IsFile(before, p) && IsFile(after, p) && after == before[p := after[p]]
    && after[p].content == content && after[p].size == |content| && after[p].lockedBy == before[p].lockedBy
  }

  lemma RewrittenLocks(before: map<string, Row>, after: map<string, Row>, p: string, content: Bytes)
    requires Rewritten(before, after, p, content)
    ensures LockedSelfOrAbove(after, p) == LockedSelfOrAbove(before, p)
  {
    hide AtOrUnder;
    forall e ensures Locked(after, e) == Locked(before, e) {}
  }

  lemma PlaceOnLive(cfg: Config, db: Db, p: string, content: Bytes, mime: string, keepMime: bool)
    requires WellFormed(db) && IsFile(db.entries, p) && p != "/" && |content| <= MAX_FILE_BYTES
    ensures Place(cfg, db, p, content, mime, keepMime).Ok? <==>
              |content| <= db.entries[p].size || db.usage + |content| - db.entries[p].size <= cfg.quota
    ensures Place(cfg, db, p, content, mime, keepMime).Ok? ==>
              var after := Place(cfg, db, p, content, mime, keepMime).value;
              Rewritten(db.entries, after.entries, p, content) && SameVersions(after, db)
              && after.usage == db.usage + |content| - db.entries[p].size
  {
    hide IsPath, MkdirChain, ParentOf, BaseName, Total;
    TreeRow(db.entries, p);
    ChainOfPresent(db.entries, p);
  }

  lemma WriteOnLive(cfg: Config, db: Db, ctx: Ctx, p: string, bytes: Bytes, mime: Option<string>, reaper: Reaper)
    requires WellFormed(db) && IsPath(p) && IsFile(db.entries, p) && Write(cfg, db, ctx, p, bytes, mime, reaper).Ok?
    ensures var after := Write(cfg, db, ctx, p, bytes, mime, reaper).value;
            && Rewritten(db.entries, after.entries, p, bytes)
            && SameVersions(after, SnapshotOverwrite(cfg, db, p, false, Some(bytes), reaper).0)
            && after.usage == db.usage + |bytes| - db.entries[p].size
            && AssertWritable(ctx, p).Ok? && !LockedSelfOrAbove(after.entries, p)
  {
    hide IsPath, Place, SnapshotOverwrite, LockedSelfOrAbove, LockedBelow, AssertWritable, WellFormed, Rewritten,
         SameVersions, Essence, MimeOr;
    SnapshotFrame(cfg, db, p, false, Some(bytes), reaper);
    var declared := Essence(cfg, mime);
    PlaceOnLive(cfg, SnapshotOverwrite(cfg, db, p, false, Some(bytes), reaper).0, p, bytes,
                MimeOr(cfg, declared, p), declared.None?);
    RewrittenLocks(db.entries, Write(cfg, db, ctx, p, bytes, mime, reaper).value.entries, p, bytes);
  }

  // The newest surviving snapshot holds these bytes, and it is one an overwrite left.
  ghost predicate Remembers(db: Db, p: string, content: Bytes) {
    var h := History(db, p);
    h != [] && h[|h| - 1].content == content && h[|h| - 1].reason.Overwrite?
  }

  // The pass behind an overwrite's snapshot, if it takes one, is a housekeeping pass.
  ghost predicate Tidied(cfg: Config, db: Db, p: string, force: bool, next: Option<Bytes>, reaper: Reaper) {
    TakesSnapshot(cfg, db, p, force, next) ==>
      var v := Version(NextNo(cfg, db, p), Overwrite, db.entries[p].content, db.entries[p].mime);
      Housekept(cfg, Push(db, p, v), p, {(p, v.no)}, reaper)
  }

  lemma EvictKeepsNewest(cfg: Config, db: Db, p: string, reaper: Reaper)
    requires p in db.history && db.history[p] != []
    requires Spared(reaper, p, LastNo(db.history[p]))
    ensures var h := History(Evict(cfg, db, reaper), p);
            h != [] && h[|h| - 1] == db.history[p][|db.history[p]| - 1]
  {
    hide Survivors, ReapedMax, Spared;
    SurvivorsAre(db.history[p], p, reaper);
  }

  lemma SnapshotRemembers(cfg: Config, db: Db, p: string, force: bool, next: Option<Bytes>, reaper: Reaper)
    requires IsFile(db.entries, p) && db.entries[p].content != [] && next != Some(db.entries[p].content)
    requires force || Versionable(cfg, db.entries[p], p)
    requires Numbered(db) && Tidied(cfg, db, p, force, next, reaper) && |db.entries[p].content| <= cfg.versionBudget
    ensures Remembers(SnapshotOverwrite(cfg, db, p, force, next, reaper).0, p, db.entries[p].content)
  {
    hide Evict, Versionable, NextNo, Spared, Housekept, Ascending, Numbered;
    if TakesSnapshot(cfg, db, p, force, next) {
      var v := Version(NextNo(cfg, db, p), Overwrite, db.entries[p].content, db.entries[p].mime);
      PushIsNewest(cfg, db, p, v);
      NewestIsSpared(cfg, Push(db, p, v), p, v, reaper);
      EvictKeepsNewest(cfg, Push(db, p, v), p, reaper);
    }
  }

  lemma PushIsNewest(cfg: Config, db: Db, p: string, v: Version)
    requires Numbered(db) && v.no == NextNo(cfg, db, p)
    ensures forall x :: x in Push(db, p, v).history[p] ==> x.no <= v.no
  {
    forall x | x in History(db, p) ensures x.no <= v.no { NoAboveLast(History(db, p), x); }
  }

  lemma SelectsRemembered(db: Db, p: string, content: Bytes, live: Bytes) returns (v: Version)
    requires Remembers(db, p, content) && live != content
    ensures Selected(History(db, p), Some(live), None) == Some(v) && v.content == content && v.reason.Overwrite?
  {
    v := History(db, p)[|History(db, p)| - 1];
  }

  // The quota refuses no rewrite that does not grow, and none that fits.
  predicate Fits(cfg: Config, db: Db, p: string, content: Bytes)
    requires p in db.entries
  {
    |content| <= db.entries[p].size || db.usage + |content| - db.entries[p].size <= cfg.quota
  }

  // A version-less restore of a live file whose newest snapshot differs puts that snapshot's bytes back,
  // unless the quota has no room for them.
  lemma RestoreToRemembered(cfg: Config, db: Db, ctx: Ctx, p: string, content: Bytes, reaper: Reaper)
    requires WellFormed(db) && IsPath(p) && IsFile(db.entries, p) && Remembers(db, p, content)
    requires db.entries[p].content != content && |content| <= MAX_FILE_BYTES
    requires AssertWritable(ctx, p).Ok? && !LockedSelfOrAbove(db.entries, p)
    ensures Restore(cfg, db, ctx, p, None, reaper).Ok? <==> Fits(cfg, db, p, content)
    ensures Restore(cfg, db, ctx, p, None, reaper).Ok? ==>
            var done := Restore(cfg, db, ctx, p, None, reaper).value;
            && Rewritten(db.entries, done.db.entries, p, content)
            && SameVersions(done.db, SnapshotOverwrite(cfg, db, p, true, Some(content), reaper).0)
            && done.db.usage == db.usage + |content| - db.entries[p].size
            && done.preserved == SnapshotOverwrite(cfg, db, p, true, Some(content), reaper).1
  {
    hide IsPath, Place, SnapshotOverwrite, LockedSelfOrAbove, AssertWritable, LockedBelow, Selected, History,
         WellFormed, SameVersions, Rewritten, Essence, MimeOr, Remembers;
    WritableIsNotRoot(ctx, p);
    var v := SelectsRemembered(db, p, content, db.entries[p].content);
    SnapshotFrame(cfg, db, p, true, Some(content), reaper);
    PlaceOnLive(cfg, SnapshotOverwrite(cfg, db, p, true, Some(content), reaper).0, p, content,
                MimeOr(cfg, Essence(cfg, v.mime), p), false);
  }

  lemma SameMemory(a: Db, b: Db, p: string, content: Bytes)
    requires SameVersions(b, a)
    ensures Remembers(a, p, content) == Remembers(b, p, content)
  {
  }

  lemma ContentFits(db: Db, p: string)
    requires WellFormed(db) && IsFile(db.entries, p)
    ensures db.entries[p].size == |db.entries[p].content| <= MAX_FILE_BYTES
  {
    TreeRow(db.entries, p);
  }

  // A changed overwrite of non-empty versionable text that alone fits the version budget is undone by
  // restore: exactly unless the old bytes outgrow the new ones on a box that is over its quota.
  lemma OverwriteIsUndone(cfg: Config, db: Db, ctx: Ctx, p: string, bytes: Bytes, mime: Option<string>, r1: Reaper,
                          r2: Reaper)
    requires WellFormed(db) && Numbered(db) && IsPath(p) && IsFile(db.entries, p)
    requires db.entries[p].content != [] && bytes != db.entries[p].content && Versionable(cfg, db.entries[p], p)
    requires db.entries[p].size <= cfg.versionBudget && Tidied(cfg, db, p, false, Some(bytes), r1)
    requires Write(cfg, db, ctx, p, bytes, mime, r1).Ok?
    ensures var db1, was := Write(cfg, db, ctx, p, bytes, mime, r1).value, db.entries[p].content;
            && (Restore(cfg, db1, ctx, p, None, r2).Ok? <==> |was| <= |bytes| || db.usage <= cfg.quota)
            && (Restore(cfg, db1, ctx, p, None, r2).Ok? ==>
               var db2 := Restore(cfg, db1, ctx, p, None, r2).value.db;
               Rewritten(db1.entries, db2.entries, p, was) && db2.usage == db.usage)
  {
    hide IsPath, Write, Restore, SnapshotOverwrite, LockedSelfOrAbove, AssertWritable, Versionable, Tidied, Numbered,
         WellFormed, SameVersions, Remembers, RowOk;
    var text := db.entries[p].content;
    var db1 := Write(cfg, db, ctx, p, bytes, mime, r1).value;
    WriteKeeps(cfg, db, ctx, p, bytes, mime, r1);
    WriteOnLive(cfg, db, ctx, p, bytes, mime, r1);
    ContentFits(db, p);
    SnapshotRemembers(cfg, db, p, false, Some(bytes), r1);
    SameMemory(SnapshotOverwrite(cfg, db, p, false, Some(bytes), r1).0, db1, p, text);
    RestoreToRemembered(cfg, db1, ctx, p, text, r2);
  }

  // A roll-back of a live file, whatever version it names.
  lemma RestoreOnLive(cfg: Config, db: Db, ctx: Ctx, p: string, named: Option<int>, reaper: Reaper)
    returns (content: Bytes)
    requires WellFormed(db) && IsPath(p) && IsFile(db.entries, p) && Restore(cfg, db, ctx, p, named, reaper).Ok?
    ensures var after := Restore(cfg, db, ctx, p, named, reaper).value.db;
            && Rewritten(db.entries, after.entries, p, content)
            && SameVersions(after, SnapshotOverwrite(cfg, db, p, true, Some(content), reaper).0)
            && after.usage == db.usage + |content| - db.entries[p].size
            && AssertWritable(ctx, p).Ok? && !LockedSelfOrAbove(after.entries, p)
  {
    hide IsPath, Place, SnapshotOverwrite, LockedSelfOrAbove, LockedBelow, AssertWritable, Selected, History,
         WellFormed, Essence, MimeOr;
    WritableIsNotRoot(ctx, p);
    var v := Selected(History(db, p), Some(db.entries[p].content), named).value;
    content := v.content;
    SnapshotFrame(cfg, db, p, true, Some(content), reaper);
    var db1 := SnapshotOverwrite(cfg, db, p, true, Some(content), reaper).0;
    PlaceFits(cfg, db1, p, content, MimeOr(cfg, Essence(cfg, v.mime), p), false);
    PlaceOnLive(cfg, db1, p, content, MimeOr(cfg, Essence(cfg, v.mime), p), false);
    RewrittenLocks(db.entries, Restore(cfg, db, ctx, p, named, reaper).value.db.entries, p, content);
  }

  lemma PlaceFits(cfg: Config, db: Db, p: string, content: Bytes, mime: string, keepMime: bool)
    requires Place(cfg, db, p, content, mime, keepMime).Ok?
    ensures |content| <= MAX_FILE_BYTES
  {
    hide MkdirChain, ParentOf;
  }

  // A roll-back is itself undoable: a second, version-less restore gives the replaced bytes back.
  lemma RestoreToggles(cfg: Config, db: Db, ctx: Ctx, p: string, named: Option<int>, r1: Reaper, r2: Reaper)
    requires WellFormed(db) && Numbered(db) && IsPath(p) && IsFile(db.entries, p)
    requires db.entries[p].content != [] && db.entries[p].size <= cfg.versionBudget
    requires Restore(cfg, db, ctx, p, named, r1).Ok?
    requires IsFile(Restore(cfg, db, ctx, p, named, r1).value.db.entries, p)
             && Restore(cfg, db, ctx, p, named, r1).value.db.entries[p].content != db.entries[p].content
    requires Tidied(cfg, db, p, true, Some(Restore(cfg, db, ctx, p, named, r1).value.db.entries[p].content), r1)
    ensures var db1, was := Restore(cfg, db, ctx, p, named, r1).value.db, db.entries[p].content;
            && (Restore(cfg, db1, ctx, p, None, r2).Ok? <==> |was| <= db1.entries[p].size || db.usage <= cfg.quota)
            && (Restore(cfg, db1, ctx, p, None, r2).Ok? ==>
                  Rewritten(db1.entries, Restore(cfg, db1, ctx, p, None, r2).value.db.entries, p, was))
  {
    hide IsPath, Restore, SnapshotOverwrite, LockedSelfOrAbove, AssertWritable, Versionable, Tidied, Numbered,
         WellFormed, SameVersions, Remembers;
    var text := db.entries[p].content;
    var db1 := Restore(cfg, db, ctx, p, named, r1).value.db;
    RestoreKeeps(cfg, db, ctx, p, named, r1);
    var content := RestoreOnLive(cfg, db, ctx, p, named, r1);
    ContentFits(db, p);
    SnapshotRemembers(cfg, db, p, true, Some(content), r1);
    SameMemory(SnapshotOverwrite(cfg, db, p, true, Some(content), r1).0, db1, p, text);
    RestoreToRemembered(cfg, db1, ctx, p, text, r2);
  }

  // The append half of a shell `>`: over the truncated file it takes no snapshot.
  lemma AppendOnEmpty(cfg: Config, db: Db, ctx: Ctx, p: string, bytes: Bytes, reaper: Reaper)
    requires WellFormed(db) && IsFile(db.entries, p) && db.entries[p].content == []
    requires Append(cfg, db, ctx, p, bytes, reaper).Ok?
    ensures var after := Append(cfg, db, ctx, p, bytes, reaper).value;
            && Rewritten(db.entries, after.entries, p, bytes) && SameVersions(after, db)
            && after.usage == db.usage + |bytes|
            && AssertWritable(ctx, p).Ok? && !LockedSelfOrAbove(after.entries, p)
  {
    hide LockedSelfOrAbove, LockedBelow, AssertWritable, ParentOf, BaseName, IsPath, Evict, Versionable, NextNo, Total,
         Tree;
    TreeRow(db.entries, p);
    var after := Append(cfg, db, ctx, p, bytes, reaper).value;
    assert [] + bytes == bytes;
    RewrittenLocks(db.entries, after.entries, p, bytes);
  }

  // A shell `>` is truncate-then-append, two transactions, and still one undo.
  lemma ShellOverwriteIsUndone(cfg: Config, db: Db, ctx: Ctx, p: string, bytes: Bytes,
                               r1: Reaper, r2: Reaper, r3: Reaper)
    requires WellFormed(db) && Numbered(db) && IsPath(p) && IsFile(db.entries, p)
    requires db.entries[p].content != [] && bytes != db.entries[p].content && Versionable(cfg, db.entries[p], p)
    requires db.entries[p].size <= cfg.versionBudget && Tidied(cfg, db, p, false, Some([]), r1)
    requires Write(cfg, db, ctx, p, [], None, r1).Ok?
    requires Append(cfg, Write(cfg, db, ctx, p, [], None, r1).value, ctx, p, bytes, r2).Ok?
    ensures var db1 := Write(cfg, db, ctx, p, [], None, r1).value;
            var db2, was := Append(cfg, db1, ctx, p, bytes, r2).value, db.entries[p].content;
            && (Restore(cfg, db2, ctx, p, None, r3).Ok? <==> |was| <= |bytes| || db.usage <= cfg.quota)
            && (Restore(cfg, db2, ctx, p, None, r3).Ok? ==>
                  Rewritten(db2.entries, Restore(cfg, db2, ctx, p, None, r3).value.db.entries, p, was))
  {
    hide IsPath, Write, Append, Restore, SnapshotOverwrite, LockedSelfOrAbove, AssertWritable, Versionable,
         Tidied, Numbered, WellFormed, SameVersions, Remembers;
    var text := db.entries[p].content;
    var db1 := Write(cfg, db, ctx, p, [], None, r1).value;
    WriteKeeps(cfg, db, ctx, p, [], None, r1);
    WriteOnLive(cfg, db, ctx, p, [], None, r1);
    ContentFits(db, p);
    SnapshotRemembers(cfg, db, p, false, Some([]), r1);
    SameMemory(SnapshotOverwrite(cfg, db, p, false, Some([]), r1).0, db1, p, text);
    var db2 := Append(cfg, db1, ctx, p, bytes, r2).value;
    AppendKeeps(cfg, db1, ctx, p, bytes, r2);
    AppendOnEmpty(cfg, db1, ctx, p, bytes, r2);
    SameMemory(db1, db2, p, text);
    RestoreToRemembered(cfg, db2, ctx, p, text, r3);
  }
}
