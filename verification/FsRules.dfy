// Rules every call obeys, whoever makes it: the quota, the caller's write scope, and what a named
// version or an undeclared media type means.
module FsRules {
  import opened Options
  import opened Paths
  import opened FsDb
  import opened FsTree
  import opened FsLocks
  import opened FsUndo
  import opened FsTrash

  // ---- the quota ------------------------------------------------------------------------------

  ghost predicate WithinQuota(cfg: Config, before: Db, after: Db) {
    after.usage <= before.usage || after.usage <= cfg.quota
  }

  lemma PlaceWithinQuota(cfg: Config, db: Db, p: string, content: Bytes, mime: string, keepMime: bool)
    requires Place(cfg, db, p, content, mime, keepMime).Ok?
    ensures WithinQuota(cfg, db, Place(cfg, db, p, content, mime, keepMime).value)
  {
    hide MkdirChain, PutFile, ParentOf;
  }

  lemma WriteWithinQuota(cfg: Config, db: Db, ctx: Ctx, p: string, bytes: Bytes, mime: Option<string>, reaper: Reaper)
    requires Write(cfg, db, ctx, p, bytes, mime, reaper).Ok?
    ensures WithinQuota(cfg, db, Write(cfg, db, ctx, p, bytes, mime, reaper).value)
  {
    hide Place, SnapshotOverwrite, AssertWritable, AssertNotLocked;
    SnapshotFrame(cfg, db, p, false, Some(bytes), reaper);
    var declared := Essence(cfg, mime);
    PlaceWithinQuota(cfg, SnapshotOverwrite(cfg, db, p, false, Some(bytes), reaper).0, p, bytes,
                     MimeOr(cfg, declared, p), declared.None?);
  }

  lemma AppendWithinQuota(cfg: Config, db: Db, ctx: Ctx, p: string, bytes: Bytes, reaper: Reaper)
    requires Append(cfg, db, ctx, p, bytes, reaper).Ok?
    ensures WithinQuota(cfg, db, Append(cfg, db, ctx, p, bytes, reaper).value)
  {
    hide SnapshotOverwrite, AssertWritable, AssertNotLocked, MkdirChain, PutFile, ParentOf;
    SnapshotFrame(cfg, db, p, false, None, reaper);
  }

  lemma RestoreWithinQuota(cfg: Config, db: Db, ctx: Ctx, p: string, named: Option<int>, reaper: Reaper)
    requires Restore(cfg, db, ctx, p, named, reaper).Ok?
    ensures WithinQuota(cfg, db, Restore(cfg, db, ctx, p, named, reaper).value.db)
  {
    hide Place, SnapshotOverwrite, AssertWritable, AssertNotLocked, Selected, Essence, MimeOr;
    var live := if p in db.entries then Some(db.entries[p].content) else None;
    var v := Selected(History(db, p), live, named).value;
    SnapshotFrame(cfg, db, p, true, Some(v.content), reaper);
    var db1 := if live.Some? then SnapshotOverwrite(cfg, db, p, true, Some(v.content), reaper).0 else db;
    PlaceWithinQuota(cfg, db1, p, v.content, MimeOr(cfg, Essence(cfg, v.mime), p), false);
  }

  lemma RenameWithinQuota(cfg: Config, db: Db, ctx: Ctx, f: string, t: string, reaper: Reaper)
    requires Rename(cfg, db, ctx, f, t, reaper).Ok?
    ensures WithinQuota(cfg, db, Rename(cfg, db, ctx, f, t, reaper).value)
  {
    hide Rename, MkdirChain, AfterMove, ParentOf, Under, AssertWritable, LockedSelfOrAbove, LockedBelow;
    if f == t { SameRename(cfg, db, ctx, f, reaper); } else { RenameShape(cfg, db, ctx, f, t, reaper); }
  }

  lemma ApplyWithinQuota(cfg: Config, db: Db, c: Call)
    ensures WithinQuota(cfg, db, Apply(cfg, db, c))
  {
    hide Write, Append, Mkdir, Rm, Rename, Restore, NormalizeFsPath, WithinQuota;
    SameWithinQuota(cfg, db);
    if NormalizeFsPath(c.op.path).Some? {
      var p := NormalizeFsPath(c.op.path).value;
      if Attempt(cfg, db, c, p).Ok? {
        match c.op
        case OpWrite(_, bytes, mime, reaper) => WriteWithinQuota(cfg, db, c.ctx, p, bytes, mime, reaper);
        case OpAppend(_, bytes, reaper) => AppendWithinQuota(cfg, db, c.ctx, p, bytes, reaper);
        case OpMkdir(_) => MkdirUsage(cfg, db, c.ctx, p);
        case OpRm(_, recursive, reaper) => RmUsage(cfg, db, c.ctx, p, recursive, reaper);
        case OpRename(_, to, reaper) => RenameWithinQuota(cfg, db, c.ctx, p, NormalizeFsPath(to).value, reaper);
        case OpRestore(_, named, reaper) => RestoreWithinQuota(cfg, db, c.ctx, p, named, reaper);
        case OpLock(_) => LockUsage(cfg, db, c.ctx, p);
        case OpUnlock(_) => LockUsage(cfg, db, c.ctx, p);
      }
    }
  }

  lemma SameWithinQuota(cfg: Config, db: Db)
    ensures WithinQuota(cfg, db, db)
  {
  }

  lemma MkdirUsage(cfg: Config, db: Db, ctx: Ctx, p: string)
    requires Mkdir(db, ctx, p).Ok?
    ensures WithinQuota(cfg, db, Mkdir(db, ctx, p).value)
  {
    hide MkdirChain, AssertWritable, AssertNotLocked;
  }

  lemma RmUsage(cfg: Config, db: Db, ctx: Ctx, p: string, recursive: bool, reaper: Reaper)
    requires Rm(cfg, db, ctx, p, recursive, reaper).Ok?
    ensures WithinQuota(cfg, db, Rm(cfg, db, ctx, p, recursive, reaper).value.db)
  {
    hide Rm, Doomed, Total;
    RmShape(cfg, db, ctx, p, recursive, reaper);
  }

  lemma LockUsage(cfg: Config, db: Db, ctx: Ctx, p: string)
    ensures Lock(db, ctx, p).Ok? ==> WithinQuota(cfg, db, Lock(db, ctx, p).value)
    ensures Unlock(db, ctx, p).Ok? ==> WithinQuota(cfg, db, Unlock(db, ctx, p).value)
  {
    hide AssertWritable;
  }

  // No run takes the bytes in use past the quota, or past where they already were.
  lemma {:induction false} RunWithinQuota(cfg: Config, db: Db, calls: seq<Call>)
    ensures WithinQuota(cfg, db, Run(cfg, db, calls))
    decreases |calls|
  {
    hide Apply;
    if calls != [] {
      ApplyWithinQuota(cfg, db, calls[0]);
      RunWithinQuota(cfg, Apply(cfg, db, calls[0]), calls[1..]);
    }
  }

  // ---- the write scope --------------------------------------------------------------------------

  // A member's home slug is one path segment (migration 0037's CHECK).
  predicate SlugOk(ctx: Ctx) { ctx.slug.Some? ==> forall i :: 0 <= i < |ctx.slug.value| ==> ctx.slug.value[i] != '/' }

  function MountOf(ctx: Ctx, p: string): string {
    if "/shared/" <= p then "/shared/" else if ctx.slug.Some? then "/home/" + ctx.slug.value + "/" else "/home//"
  }

  lemma WritableMount(ctx: Ctx, p: string)
    requires AssertWritable(ctx, p).Ok? && SlugOk(ctx)
    ensures var m := MountOf(ctx, p);
            m <= p && |m| > 1 && m[|m| - 1] == '/' && FixedRoot(m[..|m| - 1])
    ensures forall q :: MountOf(ctx, p) <= q ==> AssertWritable(ctx, q).Ok?
  {
    var m := MountOf(ctx, p);
    if "/shared/" <= p {
      assert m[..7] == "/shared";
    } else {
      var slug := ctx.slug.value;
      assert m[..|m| - 1] == "/home/" + slug;
      assert forall i :: 6 <= i < |m| - 1 ==> m[i] == slug[i - 6];
      forall q | m <= q ensures AssertWritable(ctx, q).Ok? {
        assert q[..6] == m[..6] == "/home/" && q[1] == 'h';
      }
    }
  }

  // Going up from a writable path one stays in scope until a fixed root.
  lemma ParentInScope(ctx: Ctx, p: string)
    requires AssertWritable(ctx, p).Ok? && SlugOk(ctx) && IsPath(p)
    ensures FixedRoot(ParentOf(p)) || AssertWritable(ctx, ParentOf(p)).Ok?
  {
    hide AssertWritable, FixedRoot, IsPath;
    WritableMount(ctx, p);
    LastSlashOfPath(p);
    var m, i := MountOf(ctx, p), LastSlash(p);
    assert p[|m| - 1] == m[|m| - 1] == '/';
    assert i >= |m| - 1 > 0;
    if i >= |m| {
      assert m <= p[..i];
    } else {
      assert p[..i] == m[..|m| - 1];
    }
  }

  lemma LastSlashOfPath(p: string)
    ensures p == "/" || (LastSlash(p) > 0 ==> ParentOf(p) == p[..LastSlash(p)])
  {
    hide LastSlash;
  }

  // What a chain of mkdirs adds is in the scope of the path it is for.
  lemma {:induction false} ChainInScope(ctx: Ctx, entries: map<string, Row>, dir: string, q: string)
    requires SlugOk(ctx) && IsPath(dir) && (FixedRoot(dir) || AssertWritable(ctx, dir).Ok?)
             && MkdirChain(entries, dir).Ok?
    requires !AssertWritable(ctx, q).Ok?
    ensures SameRow(entries, MkdirChain(entries, dir).value, q)
    decreases |dir|
  {
    hide AssertWritable, FixedRoot, IsPath, ParentOf, BaseName, SlugOk;
    if !FixedRoot(dir) && |ParentOf(dir)| < |dir| {
      NotRoot(dir);
      PathParts(dir);
      ParentInScope(ctx, dir);
      ChainInScope(ctx, entries, ParentOf(dir), q);
    }
  }

  // The row at q, or its absence, is as it was.
  ghost predicate SameRow(before: map<string, Row>, after: map<string, Row>, q: string) {
    (q in before <==> q in after) && (q in before ==> after[q] == before[q])
  }

  lemma PlaceInScope(cfg: Config, db: Db, ctx: Ctx, p: string, content: Bytes, mime: string, keepMime: bool, q: string)
    requires SlugOk(ctx) && IsPath(p) && AssertWritable(ctx, p).Ok? && !AssertWritable(ctx, q).Ok?
    requires Place(cfg, db, p, content, mime, keepMime).Ok?
    ensures SameRow(db.entries, Place(cfg, db, p, content, mime, keepMime).value.entries, q)
  {
    hide AssertWritable, FixedRoot, IsPath, ParentOf, MkdirChain, PutFile, SlugOk;
    WritableIsNotRoot(ctx, p);
    PathParts(p);
    ParentInScope(ctx, p);
    ChainInScope(ctx, db.entries, ParentOf(p), q);
    PutFileShape(MkdirChain(db.entries, ParentOf(p)).value, p, content, mime, keepMime);
  }

  lemma ExtendInScope(cfg: Config, db: Db, ctx: Ctx, p: string, bytes: Bytes, q: string)
    requires SlugOk(ctx) && IsPath(p) && AssertWritable(ctx, p).Ok? && !AssertWritable(ctx, q).Ok?
    requires Extend(cfg, db, p, bytes).Ok?
    ensures SameRow(db.entries, Extend(cfg, db, p, bytes).value.entries, q)
  {
    hide AssertWritable, FixedRoot, IsPath, ParentOf, MkdirChain, PutFile, SlugOk;
    WritableIsNotRoot(ctx, p);
    PathParts(p);
    ParentInScope(ctx, p);
    if !IsFile(db.entries, p) {
      ChainInScope(ctx, db.entries, ParentOf(p), q);
      PutFileShape(MkdirChain(db.entries, ParentOf(p)).value, p, bytes, cfg.mimeFromPath(p), false);
    }
  }

  lemma WriteInScope(cfg: Config, db: Db, ctx: Ctx, p: string, bytes: Bytes, mime: Option<string>, reaper: Reaper,
                     q: string)
    requires SlugOk(ctx) && IsPath(p) && !AssertWritable(ctx, q).Ok? && Write(cfg, db, ctx, p, bytes, mime, reaper).Ok?
    ensures SameRow(db.entries, Write(cfg, db, ctx, p, bytes, mime, reaper).value.entries, q)
  {
    hide Place, SnapshotOverwrite, AssertWritable, AssertNotLocked, IsPath, SlugOk, SameRow;
    SnapshotFrame(cfg, db, p, false, Some(bytes), reaper);
    var declared := Essence(cfg, mime);
    PlaceInScope(cfg, SnapshotOverwrite(cfg, db, p, false, Some(bytes), reaper).0, ctx, p, bytes,
                 MimeOr(cfg, declared, p), declared.None?, q);
  }

  lemma AppendInScope(cfg: Config, db: Db, ctx: Ctx, p: string, bytes: Bytes, reaper: Reaper, q: string)
    requires SlugOk(ctx) && IsPath(p) && !AssertWritable(ctx, q).Ok? && Append(cfg, db, ctx, p, bytes, reaper).Ok?
    ensures SameRow(db.entries, Append(cfg, db, ctx, p, bytes, reaper).value.entries, q)
  {
    hide Extend, SnapshotOverwrite, AssertWritable, AssertNotLocked, IsPath, SlugOk, SameRow;
    SnapshotFrame(cfg, db, p, false, None, reaper);
    ExtendInScope(cfg, if |bytes| > 0 then SnapshotOverwrite(cfg, db, p, false, None, reaper).0 else db, ctx, p, bytes,
                  q);
  }

  lemma RestoreInScope(cfg: Config, db: Db, ctx: Ctx, p: string, named: Option<int>, reaper: Reaper, q: string)
    requires SlugOk(ctx) && IsPath(p) && !AssertWritable(ctx, q).Ok? && Restore(cfg, db, ctx, p, named, reaper).Ok?
    ensures SameRow(db.entries, Restore(cfg, db, ctx, p, named, reaper).value.db.entries, q)
  {
    hide Place, SnapshotOverwrite, AssertWritable, AssertNotLocked, IsPath, SlugOk, SameRow, Selected, Essence, MimeOr;
    var live := if p in db.entries then Some(db.entries[p].content) else None;
    var v := Selected(History(db, p), live, named).value;
    SnapshotFrame(cfg, db, p, true, Some(v.content), reaper);
    var db1 := if live.Some? then SnapshotOverwrite(cfg, db, p, true, Some(v.content), reaper).0 else db;
    PlaceInScope(cfg, db1, ctx, p, v.content, MimeOr(cfg, Essence(cfg, v.mime), p), false, q);
  }

  lemma MkdirInScope(db: Db, ctx: Ctx, p: string, q: string)
    requires SlugOk(ctx) && IsPath(p) && !AssertWritable(ctx, q).Ok? && Mkdir(db, ctx, p).Ok?
    ensures SameRow(db.entries, Mkdir(db, ctx, p).value.entries, q)
  {
    hide MkdirChain, AssertWritable, AssertNotLocked, IsPath, SlugOk;
    if MkdirChain(db.entries, p).Ok? && AssertWritable(ctx, p).Ok? { ChainInScope(ctx, db.entries, p, q); }
  }

  lemma RmInScope(cfg: Config, db: Db, ctx: Ctx, p: string, recursive: bool, reaper: Reaper, q: string)
    requires !AssertWritable(ctx, q).Ok? && Rm(cfg, db, ctx, p, recursive, reaper).Ok?
    ensures SameRow(db.entries, Rm(cfg, db, ctx, p, recursive, reaper).value.db.entries, q)
  {
    hide AssertWritable, Under, Total, SnapshotRemoved, HasChild, AssertNotLocked;
    RmShape(cfg, db, ctx, p, recursive, reaper);
    if AtOrUnder(q, p) { WritableBelow(ctx, p, q); }
  }

  lemma RenameInScope(cfg: Config, db: Db, ctx: Ctx, f: string, t: string, reaper: Reaper, q: string)
    requires WellFormed(db) && SlugOk(ctx) && IsPath(f) && IsPath(t) && !AssertWritable(ctx, q).Ok?
    requires Rename(cfg, db, ctx, f, t, reaper).Ok?
    ensures SameRow(db.entries, Rename(cfg, db, ctx, f, t, reaper).value.entries, q)
  {
    hide AssertWritable, Under, MkdirChain, Tree, Rename, Moved, ParentOf, IsPath, LockedSelfOrAbove, LockedBelow,
         SlugOk, FixedRoot;
    if f == t {
      SameRename(cfg, db, ctx, f, reaper);
    } else {
      RenameShape(cfg, db, ctx, f, t, reaper);
      WritableIsNotRoot(ctx, f);
      WritableIsNotRoot(ctx, t);
      PathParts(t);
      ParentInScope(ctx, t);
      ChainInScope(ctx, db.entries - {t}, ParentOf(t), q);
      var entries := BeforeMove(db, f, t);
      if AtOrUnder(q, f) { WritableBelow(ctx, f, q); }
      if AtOrUnder(q, t) { WritableBelow(ctx, t, q); }
      if q in Moved(entries, f, t) { MovedLandsBelow(entries, f, t, q); }
    }
  }

  // No call creates, changes, moves or removes a row outside its caller's write scope.
  lemma CallStaysInScope(cfg: Config, db: Db, c: Call, q: string)
    requires WellFormed(db) && SlugOk(c.ctx) && !AssertWritable(c.ctx, q).Ok?
    ensures SameRow(db.entries, Apply(cfg, db, c).entries, q)
  {
    hide Write, Append, Mkdir, Rm, Rename, Restore, NormalizeFsPath, WellFormed, SlugOk, AssertWritable;
    if NormalizeFsPath(c.op.path).Some? {
      var p := NormalizeFsPath(c.op.path).value;
      if Attempt(cfg, db, c, p).Ok? {
        match c.op
        case OpWrite(_, bytes, mime, reaper) => WriteInScope(cfg, db, c.ctx, p, bytes, mime, reaper, q);
        case OpAppend(_, bytes, reaper) => AppendInScope(cfg, db, c.ctx, p, bytes, reaper, q);
        case OpMkdir(_) => MkdirInScope(db, c.ctx, p, q);
        case OpRm(_, recursive, reaper) => RmInScope(cfg, db, c.ctx, p, recursive, reaper, q);
        case OpRename(_, to, reaper) => RenameInScope(cfg, db, c.ctx, p, NormalizeFsPath(to).value, reaper, q);
        case OpRestore(_, named, reaper) => RestoreInScope(cfg, db, c.ctx, p, named, reaper, q);
        case OpLock(_) =>
        case OpUnlock(_) =>
      }
    }
  }

  // ---- what a restore restores --------------------------------------------------------------------

  lemma {:induction false} VersionAtIs(h: seq<Version>, no: int)
    ensures VersionAt(h, no).Some? ==> VersionAt(h, no).value in h && VersionAt(h, no).value.no == no
    ensures VersionAt(h, no).None? ==> forall v :: v in h ==> v.no != no
  {
    if h != [] {
      assert h == h[..|h| - 1] + [h[|h| - 1]];
      VersionAtIs(h[..|h| - 1], no);
    }
  }

  // A restore that names a version lands that version's bytes.
  lemma NamedRestore(cfg: Config, db: Db, ctx: Ctx, p: string, no: int, reaper: Reaper)
    requires WellFormed(db) && IsPath(p) && Restore(cfg, db, ctx, p, Some(no), reaper).Ok?
    ensures var done := Restore(cfg, db, ctx, p, Some(no), reaper).value;
            && done.restoredFrom == no && VersionAt(History(db, p), no).Some?
            && IsFile(done.db.entries, p) && done.db.entries[p].content == VersionAt(History(db, p), no).value.content
            && done.db.entries[p].lockedBy == (if p in db.entries then db.entries[p].lockedBy else None)
  {
    hide Place, SnapshotOverwrite, AssertWritable, AssertNotLocked, IsPath, History, VersionAt, Essence, MimeOr,
         WellFormed;
    WritableIsNotRoot(ctx, p);
    VersionAtIs(History(db, p), no);
    var v := VersionAt(History(db, p), no).value;
    SnapshotFrame(cfg, db, p, true, Some(v.content), reaper);
    var db1 := if p in db.entries then SnapshotOverwrite(cfg, db, p, true, Some(v.content), reaper).0 else db;
    PlaceLands(cfg, db1, p, v.content, MimeOr(cfg, Essence(cfg, v.mime), p), false);
  }

  lemma PlaceLands(cfg: Config, db: Db, p: string, content: Bytes, mime: string, keepMime: bool)
    requires WellFormed(db) && IsPath(p) && p != "/" && !IsDir(db.entries, p)
             && Place(cfg, db, p, content, mime, keepMime).Ok?
    ensures var after := Place(cfg, db, p, content, mime, keepMime).value.entries;
            && IsFile(after, p) && after[p].content == content
            && after[p].lockedBy == (if p in db.entries then db.entries[p].lockedBy else None)
            && after[p].mime == (if keepMime && p in db.entries && db.entries[p].mime.Some? then db.entries[p].mime
                                 else Some(mime))
  {
    hide MkdirChain, ParentOf, IsPath, BaseName, Tree;
    ChainMissesLeaf(db.entries, p);
  }

  // It is refused as missing exactly when no surviving snapshot bears the number.
  lemma NamedRestoreMissesIff(cfg: Config, db: Db, ctx: Ctx, p: string, no: int, reaper: Reaper)
    requires AssertWritable(ctx, p).Ok? && !LockedSelfOrAbove(db.entries, p) && !IsDir(db.entries, p)
    requires 1 <= no <= MAX_VERSION_NO
    ensures Restore(cfg, db, ctx, p, Some(no), reaper) == Err(ENOENT) <==>
              forall v :: v in History(db, p) ==> v.no != no
  {
    hide SnapshotOverwrite, AssertWritable, LockedSelfOrAbove, LockedBelow, History, VersionAt, Essence, MimeOr, Place,
         IsDir;
    VersionAtIs(History(db, p), no);
    if VersionAt(History(db, p), no).Some? {
      var v := VersionAt(History(db, p), no).value;
      var db1 := if p in db.entries then SnapshotOverwrite(cfg, db, p, true, Some(v.content), reaper).0 else db;
      PlaceNeverMisses(cfg, db1, p, v.content, MimeOr(cfg, Essence(cfg, v.mime), p), false);
    }
  }

  lemma PlaceNeverMisses(cfg: Config, db: Db, p: string, content: Bytes, mime: string, keepMime: bool)
    ensures Place(cfg, db, p, content, mime, keepMime) != Err(ENOENT)
  {
    hide ParentOf, BaseName, MkdirChain;
    ChainNeverMisses(db.entries, ParentOf(p));
  }

  // ---- media types ------------------------------------------------------------------------------------

  // A write that declares nothing keeps the media type a file has; one that declares replaces it.
  lemma SilenceKeepsTheMediaType(cfg: Config, db: Db, ctx: Ctx, p: string, bytes: Bytes, mime: Option<string>,
                                 reaper: Reaper)
    requires WellFormed(db) && IsPath(p) && Write(cfg, db, ctx, p, bytes, mime, reaper).Ok?
    ensures var after := Write(cfg, db, ctx, p, bytes, mime, reaper).value.entries;
            && IsFile(after, p)
            && after[p].mime == (if Essence(cfg, mime).Some? then Essence(cfg, mime)
                                 else if p in db.entries && db.entries[p].mime.Some? then db.entries[p].mime
                                 else Some(cfg.mimeFromPath(p)))
  {
    hide Place, SnapshotOverwrite, AssertWritable, AssertNotLocked, IsPath, WellFormed;
    SnapshotFrame(cfg, db, p, false, Some(bytes), reaper);
    var declared := Essence(cfg, mime);
    PlaceLands(cfg, SnapshotOverwrite(cfg, db, p, false, Some(bytes), reaper).0, p, bytes, MimeOr(cfg, declared, p),
               declared.None?);
  }
}
