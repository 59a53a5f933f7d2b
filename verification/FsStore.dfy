// packages/mcp-tools/src/fs-store.ts: the store itself, statement by statement. Each public
// method works on a copy of the tables (BEGIN), and assigns it back only at its end (COMMIT).
module FsStores {
  import opened Options
  import opened Paths
  import opened FsDb
  import opened FsTree
  import opened FsLocks

  // ---- statements ---------------------------------------------------------------------------

  function InsertAll(entries: map<string, Row>, chain: seq<string>): Result<map<string, Row>>
    decreases |chain|
  {
    if chain == [] then Ok(entries)
    else
      var more :- InsertDir(entries, chain[0]);
      InsertAll(more, chain[1..])
  }

  function Above(entries: map<string, Row>, dir: string, chain: seq<string>): Result<map<string, Row>> {
    var above :- MkdirChain(entries, dir);
    InsertAll(above, chain)
  }

  lemma AboveStepsUp(entries: map<string, Row>, dir: string, chain: seq<string>)
    requires !FixedRoot(dir) && |ParentOf(dir)| < |dir|
    ensures Above(entries, ParentOf(dir), [dir] + chain) == Above(entries, dir, chain)
  {
    hide ParentOf, InsertDir;
    assert ([dir] + chain)[1..] == chain;
  }

  // mkdirChain: collect the ancestors below the fixed roots, then insert them top down.
  method InsertChain(entries: map<string, Row>, dir: string) returns (r: Result<map<string, Row>>)
    requires IsPath(dir)
    ensures r == MkdirChain(entries, dir)
  {
    hide ParentOf, IsPath, InsertDir, BaseName, MkdirChain;
    var chain: seq<string> := [];
    var cur := dir;
    AboveWhole(entries, dir);
    while !FixedRoot(cur)
      invariant IsPath(cur)
      invariant Above(entries, cur, chain) == MkdirChain(entries, dir)
      decreases |cur|
    {
      NotRoot(cur);
      PathParts(cur);
      AboveStepsUp(entries, cur, chain);
      chain := [cur] + chain;
      cur := ParentOf(cur);
    }
    ChainOfRoot(entries, cur);
    var work := entries;
    var i := 0;
    while i < |chain|
      invariant 0 <= i <= |chain|
      invariant InsertAll(work, chain[i..]) == MkdirChain(entries, dir)
    {
      var inserted := InsertDir(work, chain[i]);
      assert chain[i..][1..] == chain[i + 1..];
      if inserted.Err? { return inserted; }
      work := inserted.value;
      i := i + 1;
    }
    r := Ok(work);
  }

  lemma AboveWhole(entries: map<string, Row>, dir: string)
    ensures Above(entries, dir, []) == MkdirChain(entries, dir)
  {
    hide MkdirChain;
  }

  lemma ChainOfRoot(entries: map<string, Row>, dir: string)
    requires FixedRoot(dir)
    ensures MkdirChain(entries, dir) == Ok(entries)
  {
  }

  // The DELETE's RETURNING rows, added up.
  method Freed(entries: map<string, Row>, doomed: set<string>) returns (freed: nat)
    requires doomed <= entries.Keys
    ensures freed == Total(map q | q in doomed :: entries[q])
  {
    var rest := doomed;
    ghost var left := map q | q in doomed :: entries[q];
    freed := 0;
    while rest != {}
      invariant rest <= doomed && left.Keys == rest && forall q :: q in rest ==> left[q] == entries[q]
      invariant freed + Total(left) == Total(map q | q in doomed :: entries[q])
      decreases rest
    {
      var q :| q in rest;
      TotalRemove(left, q);
      left := left - {q};
      freed := freed + SizeOf(entries[q]);
      rest := rest - {q};
    }
    assert left == map[];
  }

  // How a transaction ends for its caller: done, or the error it was refused with.
  function Ending<T>(r: Result<T>): Result<()> {
    match r case Ok(_) => Ok(()) case Err(e) => Err(e)
  }

  // ---- the store ------------------------------------------------------------------------------

  class FsStore {
    const cfg: Config
    var db: Db

    constructor (cfg: Config, db: Db)
      ensures this.cfg == cfg && this.db == db
    {
      this.cfg, this.db := cfg, db;
    }

    // mkdirChain, bumpUsage, insertFileRow: the tail of write() and restore(), on the open transaction.
    method PlaceFile(tx: Db, p: string, content: Bytes, mime: string, keepMime: bool) returns (r: Result<Db>)
      requires IsPath(p) && p != "/"
      ensures r == Place(cfg, tx, p, content, mime, keepMime)
    {
      hide IsPath, ParentOf, MkdirChain, PutFile, BaseName;
      PathParts(p);
      var before := if p in tx.entries then tx.entries[p].size else 0;
      var chained := InsertChain(tx.entries, ParentOf(p));
      if chained.Err? { return Err(chained.error); }
      var usage := BumpUsage(tx.usage, |content| - before, cfg.quota);
      if usage.Err? { return Err(usage.error); }
      var put := PutFile(chained.value, p, content, mime, keepMime);
      if put.Err? { return Err(put.error); }
      r := Ok(tx.(entries := put.value, usage := usage.value));
    }

    method Write(ctx: Ctx, path: string, bytes: Bytes, mime: Option<string>, reaper: Reaper) returns (r: Result<()>)
      modifies this
      ensures db == Apply(cfg, old(db), Call(ctx, OpWrite(path, bytes, mime, reaper)))
      ensures r == match NormalizeFsPath(path)
                   case None => Err(EINVAL)
                   case Some(p) => Ending(FsDb.Write(cfg, old(db), ctx, p, bytes, mime, reaper))
      ensures WellFormed(old(db)) ==> WellFormed(db)
      ensures r.Err? ==> db == old(db)
    {
      hide IsPath, Place, NormalizeFsPath, WellFormed, AssertNotLocked, AssertWritable, SnapshotOverwrite;
      if WellFormed(db) { ApplyKeeps(cfg, db, Call(ctx, OpWrite(path, bytes, mime, reaper))); }
      var normal := NormalizeFsPath(path);
      if normal.None? { return Err(EINVAL); }
      var p := normal.value;
      if p == "/" { return Err(EISDIR); }
      var may := AssertWritable(ctx, p);
      if may.Err? { return Err(may.error); }
      if |bytes| > MAX_FILE_BYTES { return Err(EFBIG); }
      var declared := Essence(cfg, mime);
      var tx := db;
      var free := AssertNotLocked(tx.entries, p, false);
      if free.Err? { return Err(free.error); }
      if IsDir(tx.entries, p) { return Err(EISDIR); }
      tx := SnapshotOverwrite(cfg, tx, p, false, Some(bytes), reaper).0;
      var placed := PlaceFile(tx, p, bytes, MimeOr(cfg, declared, p), declared.None?);
      if placed.Err? { return Err(placed.error); }
      db := placed.value;
      r := Ok(());
    }

    method Append(ctx: Ctx, path: string, bytes: Bytes, reaper: Reaper) returns (r: Result<()>)
      modifies this
      ensures db == Apply(cfg, old(db), Call(ctx, OpAppend(path, bytes, reaper)))
      ensures r == match NormalizeFsPath(path)
                   case None => Err(EINVAL)
                   case Some(p) => Ending(FsDb.Append(cfg, old(db), ctx, p, bytes, reaper))
      ensures WellFormed(old(db)) ==> WellFormed(db)
      ensures r.Err? ==> db == old(db)
    {
      hide IsPath, NormalizeFsPath, WellFormed, AssertNotLocked, AssertWritable, SnapshotOverwrite, Extend;
      if WellFormed(db) { ApplyKeeps(cfg, db, Call(ctx, OpAppend(path, bytes, reaper))); }
      var normal := NormalizeFsPath(path);
      if normal.None? { return Err(EINVAL); }
      var p := normal.value;
      var may := AssertWritable(ctx, p);
      if may.Err? { return Err(may.error); }
      WritableIsNotRoot(ctx, p);
      if |bytes| > MAX_FILE_BYTES { return Err(EFBIG); }
      var tx := db;
      var free := AssertNotLocked(tx.entries, p, false);
      if free.Err? { return Err(free.error); }
      if |bytes| > 0 { tx := SnapshotOverwrite(cfg, tx, p, false, None, reaper).0; }
      var extended := ExtendFile(tx, p, bytes);
      if extended.Err? { return Err(extended.error); }
      db := extended.value;
      r := Ok(());
    }

    // UPDATE … content || $2; when it hits no file row, refuse a directory or create the file.
    method ExtendFile(tx: Db, p: string, bytes: Bytes) returns (r: Result<Db>)
      requires IsPath(p) && p != "/"
      ensures r == Extend(cfg, tx, p, bytes)
    {
      hide IsPath, ParentOf, MkdirChain, PutFile, BaseName;
      PathParts(p);
      var entries := tx.entries;
      if IsFile(entries, p) {
        var row := entries[p];
        if |row.content| + |bytes| > MAX_FILE_BYTES { return Err(EFBIG); }
        if !IsDir(entries, ParentOf(p)) { return Err(ENOTDIR); }
        entries := entries[p := row.(content := row.content + bytes, size := row.size + |bytes|)];
      } else {
        if IsDir(entries, p) { return Err(EISDIR); }
        var chained := InsertChain(entries, ParentOf(p));
        if chained.Err? { return Err(chained.error); }
        var put := PutFile(chained.value, p, bytes, cfg.mimeFromPath(p), false);
        if put.Err? { return Err(put.error); }
        entries := put.value;
      }
      var usage := BumpUsage(tx.usage, |bytes|, cfg.quota);
      if usage.Err? { return Err(usage.error); }
      r := Ok(tx.(entries := entries, usage := usage.value));
    }

    method Mkdir(ctx: Ctx, path: string) returns (r: Result<()>)
      modifies this
      ensures db == Apply(cfg, old(db), Call(ctx, OpMkdir(path)))
      ensures r == match NormalizeFsPath(path)
                   case None => Err(EINVAL)
                   case Some(p) => Ending(FsDb.Mkdir(old(db), ctx, p))
      ensures WellFormed(old(db)) ==> WellFormed(db)
      ensures r.Err? ==> db == old(db)
    {
      hide IsPath, NormalizeFsPath, WellFormed, AssertNotLocked, AssertWritable, MkdirChain;
      if WellFormed(db) { ApplyKeeps(cfg, db, Call(ctx, OpMkdir(path))); }
      var normal := NormalizeFsPath(path);
      if normal.None? { return Err(EINVAL); }
      var p := normal.value;
      if p == "/" || p == "/shared" || p == "/home" { return Ok(()); }
      var may := AssertWritable(ctx, p);
      if may.Err? { return Err(may.error); }
      if IsDir(db.entries, p) { return Ok(()); }
      var free := AssertNotLocked(db.entries, p, false);
      if free.Err? { return Err(free.error); }
      var chained := InsertChain(db.entries, p);
      if chained.Err? { return Err(chained.error); }
      if !IsDir(chained.value, p) { return Err(EEXIST); }
      db := db.(entries := chained.value);
      r := Ok(());
    }

    method Rm(ctx: Ctx, path: string, recursive: bool, reaper: Reaper) returns (r: Result<(nat, set<string>)>)
      modifies this
      ensures db == Apply(cfg, old(db), Call(ctx, OpRm(path, recursive, reaper)))
      ensures Ending(r) == match NormalizeFsPath(path)
                   case None => Err(EINVAL)
                   case Some(p) => Ending(FsDb.Rm(cfg, old(db), ctx, p, recursive, reaper))
      ensures r.Ok? ==> var done := FsDb.Rm(cfg, old(db), ctx, NormalizeFsPath(path).value, recursive, reaper).value;
                        r.value == (done.removed, done.unrecoverable)
      ensures WellFormed(old(db)) ==> WellFormed(db)
      ensures r.Err? ==> db == old(db)
    {
      hide IsPath, NormalizeFsPath, WellFormed, AssertNotLocked, AssertWritable, SnapshotRemoved, HasChild, Total,
           Under;
      if WellFormed(db) { ApplyKeeps(cfg, db, Call(ctx, OpRm(path, recursive, reaper))); }
      var normal := NormalizeFsPath(path);
      if normal.None? { return Err(EINVAL); }
      var p := normal.value;
      var may := AssertWritable(ctx, p);
      if may.Err? { return Err(may.error); }
      var tx := db;
      var free := AssertNotLocked(tx.entries, p, recursive);
      if free.Err? { return Err(free.error); }
      if p !in tx.entries { return Err(ENOENT); }
      if tx.entries[p].kind.Dir? && !recursive && HasChild(tx.entries, p) { return Err(ENOTEMPTY); }
      var doomed := Doomed(tx.entries, p, recursive);
      var (trashed, lost) := SnapshotRemoved(cfg, tx, FilesOf(tx.entries, doomed), reaper);
      var freed := Freed(tx.entries, doomed);
      tx := trashed.(entries := tx.entries - doomed, usage := trashed.usage - freed);
      db := tx;
      r := Ok((|doomed|, lost));
    }

    method Rename(ctx: Ctx, path: string, to: string, reaper: Reaper) returns (r: Result<()>)
      modifies this
      ensures db == Apply(cfg, old(db), Call(ctx, OpRename(path, to, reaper)))
      ensures r == match NormalizeFsPath(path)
                   case None => Err(EINVAL)
                   case Some(f) =>
                     match NormalizeFsPath(to)
                     case None => Err(EINVAL)
                     case Some(t) => Ending(FsDb.Rename(cfg, old(db), ctx, f, t, reaper))
      ensures WellFormed(old(db)) ==> WellFormed(db)
      ensures r.Err? ==> db == old(db)
    {
      hide IsPath, NormalizeFsPath, WellFormed, AssertNotLocked, AssertWritable, SnapshotRemoved, Under, ParentOf,
           MkdirChain, Moved, Unmoved, BaseName;
      if WellFormed(db) { ApplyKeeps(cfg, db, Call(ctx, OpRename(path, to, reaper))); }
      var from := NormalizeFsPath(path);
      if from.None? { return Err(EINVAL); }
      var target := NormalizeFsPath(to);
      if target.None? { return Err(EINVAL); }
      var f, t := from.value, target.value;
      if f == t { return Ok(()); }
      if Under(t, f) { return Err(EINVAL); }
      var may := AssertWritable(ctx, f);
      if may.Err? { return Err(may.error); }
      may := AssertWritable(ctx, t);
      if may.Err? { return Err(may.error); }
      WritableIsNotRoot(ctx, t);
      PathParts(t);
      var tx := db;
      var free := AssertNotLocked(tx.entries, f, true);
      if free.Err? { return Err(free.error); }
      free := AssertNotLocked(tx.entries, t, true);
      if free.Err? { return Err(free.error); }
      if f !in tx.entries { return Err(ENOENT); }
      if t in tx.entries {
        if !(IsFile(tx.entries, f) && IsFile(tx.entries, t)) { return Err(EEXIST); }
        var size := tx.entries[t].size;
        tx := SnapshotRemoved(cfg, tx, {t}, reaper).0;
        tx := tx.(entries := db.entries - {t}, usage := tx.usage - size);
      }
      var chained := InsertChain(tx.entries, ParentOf(t));
      if chained.Err? { return Err(chained.error); }
      if !IsDir(chained.value, ParentOf(t)) { return Err(ENOTDIR); }
      tx := tx.(entries := Unmoved(chained.value, f) + Moved(chained.value, f, t));
      db := tx;
      r := Ok(());
    }

    method Restore(ctx: Ctx, path: string, named: Option<int>, reaper: Reaper) returns (r: Result<(nat, Option<nat>)>)
      modifies this
      ensures db == Apply(cfg, old(db), Call(ctx, OpRestore(path, named, reaper)))
      ensures Ending(r) == match NormalizeFsPath(path)
                   case None => Err(EINVAL)
                   case Some(p) => Ending(FsDb.Restore(cfg, old(db), ctx, p, named, reaper))
      ensures r.Ok? ==> var done := FsDb.Restore(cfg, old(db), ctx, NormalizeFsPath(path).value, named, reaper).value;
                        r.value == (done.restoredFrom, done.preserved)
      ensures WellFormed(old(db)) ==> WellFormed(db)
      ensures r.Err? ==> db == old(db)
    {
      hide IsPath, NormalizeFsPath, WellFormed, AssertNotLocked, AssertWritable, SnapshotOverwrite, Place, Selected,
           History;
      if WellFormed(db) { ApplyKeeps(cfg, db, Call(ctx, OpRestore(path, named, reaper))); }
      var normal := NormalizeFsPath(path);
      if normal.None? { return Err(EINVAL); }
      var p := normal.value;
      if named.Some? && named.value < 1 { return Err(EINVAL); }
      if named.Some? && named.value > MAX_VERSION_NO { return Err(ENOENT); }
      var may := AssertWritable(ctx, p);
      if may.Err? { return Err(may.error); }
      WritableIsNotRoot(ctx, p);
      var tx := db;
      var free := AssertNotLocked(tx.entries, p, false);
      if free.Err? { return Err(free.error); }
      if IsDir(tx.entries, p) { return Err(EISDIR); }
      var live := if p in tx.entries then Some(tx.entries[p].content) else None;
      var chosen := Selected(History(tx, p), live, named);
      if chosen.None? { return Err(ENOENT); }
      var v := chosen.value;
      var preserved: Option<nat> := None;
      if live.Some? {
        if v.reason.Deletion? { return Err(EEXIST); }
        var (kept, no) := SnapshotOverwrite(cfg, tx, p, true, Some(v.content), reaper);
        tx, preserved := kept, no;
      }
      var placed := PlaceFile(tx, p, v.content, MimeOr(cfg, Essence(cfg, v.mime), p), false);
      if placed.Err? { return Err(placed.error); }
      db := placed.value;
      r := Ok((v.no, preserved));
    }

    // Taken when the path is the caller's to write, is there, and nobody else holds it, an owner
    // overriding: the caller holds it then, and every path at or below it is covered.
    method Lock(ctx: Ctx, path: string) returns (r: Result<()>)
      modifies this
      ensures db == Apply(cfg, old(db), Call(ctx, OpLock(path)))
      ensures WellFormed(old(db)) ==> WellFormed(db)
      ensures r.Err? ==> db == old(db)
      ensures r.Ok? <==> MayLock(old(db), ctx, NormalizeFsPath(path))
      ensures r.Err? ==> r.error == LockRefusal(old(db), ctx, NormalizeFsPath(path), ENOENT)
      ensures r.Ok? ==>
                var p := NormalizeFsPath(path).value;
                && Holder(db.entries, p) == Some(ctx.actor) && OnlyLockMoved(old(db), db, p)
                && forall q :: LockedSelfOrAbove(db.entries, q) <==>
                                 LockedSelfOrAbove(old(db.entries), q) || AtOrUnder(q, p)
    {
      hide IsPath, NormalizeFsPath, WellFormed, AssertWritable, Apply, AtOrUnder;
      LockApplies(cfg, db, ctx, path);
      if WellFormed(db) { ApplyKeeps(cfg, db, Call(ctx, OpLock(path))); }
      var normal := NormalizeFsPath(path);
      if normal.None? { return Err(EINVAL); }
      var p := normal.value;
      var may := AssertWritable(ctx, p);
      if may.Err? { return Err(may.error); }
      if p !in db.entries { return Err(ENOENT); }
      var holder := db.entries[p].lockedBy;
      if holder.Some? && holder.value != ctx.actor && !ctx.isOwner { return Err(EREFUSED); }
      LockCovers(db.entries, p, Some(ctx.actor));
      db := db.(entries := db.entries[p := db.entries[p].(lockedBy := Some(ctx.actor))]);
      r := Ok(());
    }

    // Released by its holder or an owner; a path nobody holds is left as it is. Nobody holds it
    // then, and a path stays covered exactly by the locks other than this one.
    method Unlock(ctx: Ctx, path: string) returns (r: Result<()>)
      modifies this
      ensures db == Apply(cfg, old(db), Call(ctx, OpUnlock(path)))
      ensures WellFormed(old(db)) ==> WellFormed(db)
      ensures r.Err? ==> db == old(db)
      ensures r.Ok? <==> NormalizeFsPath(path).Some? && AssertWritable(ctx, NormalizeFsPath(path).value).Ok?
                         && (Holder(old(db.entries), NormalizeFsPath(path).value).Some? ==>
                               MayLock(old(db), ctx, NormalizeFsPath(path)))
      ensures r.Err? ==> r.error == LockRefusal(old(db), ctx, NormalizeFsPath(path), EREFUSED)
      ensures r.Ok? ==>
                var p := NormalizeFsPath(path).value;
                && Holder(db.entries, p).None? && OnlyLockMoved(old(db), db, p)
                && forall q :: LockedSelfOrAbove(db.entries, q) <==>
                                 exists e :: e != p && Locked(old(db.entries), e) && AtOrUnder(q, e)
    {
      hide IsPath, NormalizeFsPath, WellFormed, AssertWritable, Apply, AtOrUnder;
      LockApplies(cfg, db, ctx, path);
      if WellFormed(db) { ApplyKeeps(cfg, db, Call(ctx, OpUnlock(path))); }
      var normal := NormalizeFsPath(path);
      if normal.None? { return Err(EINVAL); }
      var p := normal.value;
      var may := AssertWritable(ctx, p);
      if may.Err? { return Err(may.error); }
      if p in db.entries { LockCovers(db.entries, p, None); }
      if !Locked(db.entries, p) {
        assert p in db.entries ==> db.entries[p := db.entries[p].(lockedBy := None)] == db.entries;
        return Ok(());
      }
      if db.entries[p].lockedBy.value != ctx.actor && !ctx.isOwner { return Err(EREFUSED); }
      db := db.(entries := db.entries[p := db.entries[p].(lockedBy := None)]);
      r := Ok(());
    }
  }

  // ---- who holds a lock ---------------------------------------------------------------------

  function Holder(entries: map<string, Row>, p: string): Option<string> {
    if p in entries then entries[p].lockedBy else None
  }

  predicate MayLock(db: Db, ctx: Ctx, normal: Option<string>) {
    && normal.Some? && AssertWritable(ctx, normal.value).Ok? && normal.value in db.entries
    && (Holder(db.entries, normal.value) in {None, Some(ctx.actor)} || ctx.isOwner)
  }

  // What a refused lock or unlock is told; `missing` for a row that is not there.
  function LockRefusal(db: Db, ctx: Ctx, normal: Option<string>, missing: FsError): FsError {
    if normal.None? then EINVAL
    else if AssertWritable(ctx, normal.value).Err? then AssertWritable(ctx, normal.value).error
    else if normal.value !in db.entries then missing
    else EREFUSED
  }

  predicate OnlyLockMoved(before: Db, after: Db, p: string) {
    && after == before.(entries := after.entries)
    && after.entries.Keys == before.entries.Keys && after.entries - {p} == before.entries - {p}
    && (p in before.entries ==> after.entries[p] == before.entries[p].(lockedBy := after.entries[p].lockedBy))
  }

  lemma LockApplies(cfg: Config, db: Db, ctx: Ctx, path: string)
    ensures Apply(cfg, db, Call(ctx, OpLock(path))) ==
              match NormalizeFsPath(path)
              case None => db
              case Some(p) => (match FsDb.Lock(db, ctx, p) case Ok(after) => after case Err(_) => db)
    ensures Apply(cfg, db, Call(ctx, OpUnlock(path))) ==
              match NormalizeFsPath(path)
              case None => db
              case Some(p) => (match FsDb.Unlock(db, ctx, p) case Ok(after) => after case Err(_) => db)
    ensures WellFormed(db) ==>
              && WellFormed(Apply(cfg, db, Call(ctx, OpLock(path))))
              && WellFormed(Apply(cfg, db, Call(ctx, OpUnlock(path))))
  {
    hide NormalizeFsPath, WellFormed, AssertWritable, FsDb.Lock, FsDb.Unlock;
    if WellFormed(db) {
      ApplyKeeps(cfg, db, Call(ctx, OpLock(path)));
      ApplyKeeps(cfg, db, Call(ctx, OpUnlock(path)));
    }
  }

  lemma LockCovers(entries: map<string, Row>, p: string, holder: Option<string>)
    requires p in entries
    ensures var after := entries[p := entries[p].(lockedBy := holder)];
            forall q :: LockedSelfOrAbove(after, q) <==>
                          || (holder.Some? && AtOrUnder(q, p))
                          || exists e :: e != p && Locked(entries, e) && AtOrUnder(q, e)
    ensures forall q :: LockedSelfOrAbove(entries, q) <==>
                          || (Locked(entries, p) && AtOrUnder(q, p))
                          || exists e :: e != p && Locked(entries, e) && AtOrUnder(q, e)
  {
    hide AtOrUnder;
    var after := entries[p := entries[p].(lockedBy := holder)];
    forall q
      ensures LockedSelfOrAbove(after, q) <==>
                (holder.Some? && AtOrUnder(q, p)) || exists e :: e != p && Locked(entries, e) && AtOrUnder(q, e)
    {
      if LockedSelfOrAbove(after, q) {
        var e :| e in after && Locked(after, e) && AtOrUnder(q, e);
        assert e != p ==> Locked(entries, e);
      }
      if holder.Some? && AtOrUnder(q, p) { assert Locked(after, p); }
      if e :| e != p && Locked(entries, e) && AtOrUnder(q, e) { assert Locked(after, e); }
    }
  }
}
