// packages/mcp-tools/src/fs-store.ts over its tables (migrations 0037, 0043, 0048): what each
// public method's one transaction does to fs_entries, fs_versions, fs_version_seq and fs_usage.
module FsDb {
  import opened Options
  import opened Characters
  import opened Paths

  type Bytes = seq<Byte>

  const MAX_FILE_BYTES := 104_857_600
  const VERSION_MAX_FILE_BYTES := 1_048_576
  const MAX_VERSION_NO := 2_147_483_647

  datatype Kind = Dir | File
  datatype Row = Row(
    parent: string, name: string, kind: Kind, content: Bytes, size: nat, mime: Option<string>, lockedBy: Option<string>)

  datatype Reason = Overwrite | Deletion
  // A snapshot's sha256 is told apart by its content: no two contents share a hash.
  datatype Version = Version(no: nat, reason: Reason, content: Bytes, mime: Option<string>)

  // history: each path's surviving snapshots, oldest number first. floors: fs_version_seq.
  datatype Db = Db(
    entries: map<string, Row>, history: map<string, seq<Version>>, floors: map<string, nat>, usage: int)

  // floorFn: whether migration 0048 has landed. vetoes: the media types that are known binaries.
  // versionBudget, versionKeep: the bytes all snapshots may hold together, the overwrites kept a path.
  datatype Config = Config(
    quota: nat, floorFn: bool, vetoes: (Option<string>, string) -> bool,
    essence: string -> Option<string>, mimeFromPath: string -> string, versionBudget: nat, versionKeep: nat)

  datatype Ctx = Ctx(actor: string, readOnly: bool, isOwner: bool, slug: Option<string>)

  datatype FsError =
    | EINVAL | EROFS | EACCES | EISDIR | EFBIG | ELOCKED | ENOTDIR | ENOENT | ENOTEMPTY | EEXIST | ENOSPC | EREFUSED

  datatype Result<+T> = Ok(value: T) | Err(error: FsError) {
    predicate IsFailure() { Err? }
    function PropagateFailure<U>(): Result<U>
      requires Err?
    { Err(error) }
    function Extract(): T
      requires Ok?
    { value }
  }

  // ---- guards ------------------------------------------------------------------------

  function AssertWritable(ctx: Ctx, p: string): Result<()> {
    if ctx.readOnly then Err(EROFS)
    else if "/shared/" <= p then Ok(())
    else if "/home/" <= p then
      match ctx.slug
      case None => Err(EREFUSED)
      case Some(slug) => if "/home/" + slug + "/" <= p then Ok(()) else Err(EACCES)
    else Err(EACCES)
  }

  predicate Locked(entries: map<string, Row>, p: string) {
    p in entries && entries[p].lockedBy.Some?
  }

  predicate LockedSelfOrAbove(entries: map<string, Row>, p: string) {
    exists e :: e in entries && Locked(entries, e) && AtOrUnder(p, e)
  }

  predicate LockedBelow(entries: map<string, Row>, p: string) {
    exists e :: e in entries && Locked(entries, e) && Under(e, p)
  }

  function AssertNotLocked(entries: map<string, Row>, p: string, subtree: bool): Result<()> {
    if LockedSelfOrAbove(entries, p) || (subtree && LockedBelow(entries, p)) then Err(ELOCKED) else Ok(())
  }

  predicate IsDir(entries: map<string, Row>, p: string) { p in entries && entries[p].kind.Dir? }
  predicate IsFile(entries: map<string, Row>, p: string) { p in entries && entries[p].kind.File? }

  // ---- rows --------------------------------------------------------------------------

  function FileRow(p: string, content: Bytes, mime: string): Row {
    Row(ParentOf(p), BaseName(p), File, content, |content|, Some(mime), None)
  }

  function DirRow(p: string): Row {
    Row(ParentOf(p), BaseName(p), Dir, [], 0, None, None)
  }

  predicate FixedRoot(p: string) {
    p == "/" || p == "/shared" || p == "/home" || IsHomeRoot(p) || p == ""
  }

  predicate IsHomeRoot(p: string) {
    "/home/" <= p && forall i :: 6 <= i < |p| ==> p[i] != '/'
  }

  // INSERT … ON CONFLICT DO NOTHING of one directory, with fs_assert_parent behind it.
  function InsertDir(entries: map<string, Row>, d: string): Result<map<string, Row>> {
    if d in entries then Ok(entries)
    else if IsDir(entries, ParentOf(d)) then Ok(entries[d := DirRow(d)])
    else Err(ENOTDIR)
  }

  function MkdirChain(entries: map<string, Row>, dir: string): Result<map<string, Row>>
    decreases |dir|
  {
    if FixedRoot(dir) || |ParentOf(dir)| >= |dir| then Ok(entries)
    else
      var above :- MkdirChain(entries, ParentOf(dir));
      InsertDir(above, dir)
  }

  function BumpUsage(usage: int, delta: int, quota: nat): Result<int> {
    if delta > 0 && usage + delta > quota then Err(ENOSPC) else Ok(usage + delta)
  }

  // INSERT … ON CONFLICT (path) DO UPDATE of a whole file: an existing row keeps its lock.
  function PutFile(entries: map<string, Row>, p: string, content: Bytes, mime: string,
                   keepMime: bool): Result<map<string, Row>> {
    if |content| > MAX_FILE_BYTES then Err(EFBIG)
    else if !IsDir(entries, ParentOf(p)) then Err(ENOTDIR)
    else if p in entries then
      Ok(entries[p := entries[p].(content := content, size := |content|,
                                  mime := if keepMime && entries[p].mime.Some? then entries[p].mime else Some(mime))])
    else Ok(entries[p := FileRow(p, content, mime)])
  }

  // ---- version history -----------------------------------------------------------------

  function History(db: Db, p: string): seq<Version> { if p in db.history then db.history[p] else [] }
  function Floor(db: Db, p: string): nat { if p in db.floors then db.floors[p] else 0 }
  function Max(a: nat, b: nat): nat { if a < b then b else a }
  function LastNo(h: seq<Version>): nat { if h == [] then 0 else h[|h| - 1].no }

  function NextNo(cfg: Config, db: Db, p: string): nat {
    Max(LastNo(History(db, p)), if cfg.floorFn then Floor(db, p) else 0) + 1
  }

  predicate IsTextByte(b: Byte) {
    b != 0 && b != 0x7f && (b < 0x20 ==> b in {7, 8, 9, 10, 11, 12, 13, 27})
  }

  predicate LooksTextual(content: Bytes) {
    forall i :: 0 <= i < |content| ==> IsTextByte(content[i])
  }

  predicate Versionable(cfg: Config, row: Row, p: string) {
    row.size <= VERSION_MAX_FILE_BYTES && !cfg.vetoes(row.mime, p) && LooksTextual(row.content)
  }

  // One housekeeping pass: any rows at all may be its victims, or it fails and takes none.
  // The reaper records the highest number it destroys; that record is its contract (0048).
  datatype Reaper = Skipped | Reaped(victims: set<(string, nat)>)

  predicate Spared(reaper: Reaper, p: string, no: nat) { reaper.Skipped? || (p, no) !in reaper.victims }

  function Survivors(h: seq<Version>, p: string, reaper: Reaper): seq<Version> {
    if h == [] then []
    else
      var front, last := h[..|h| - 1], h[|h| - 1];
      if Spared(reaper, p, last.no) then Survivors(front, p, reaper) + [last] else Survivors(front, p, reaper)
  }

  function ReapedMax(h: seq<Version>, p: string, reaper: Reaper): nat {
    if h == [] then 0
    else
      var last := h[|h| - 1];
      Max(ReapedMax(h[..|h| - 1], p, reaper), if Spared(reaper, p, last.no) then 0 else last.no)
  }

  function Evict(cfg: Config, db: Db, reaper: Reaper): Db {
    db.(history := map p | p in db.history :: Survivors(db.history[p], p, reaper),
        floors := if cfg.floorFn
                  then map p | p in db.floors.Keys + db.history.Keys ::
                         Max(Floor(db, p), ReapedMax(History(db, p), p, reaper))
                  else db.floors)
  }

  function Push(db: Db, p: string, v: Version): Db {
    db.(history := db.history[p := History(db, p) + [v]])
  }

  // snapshotIfVersionable: whether this overwrite has anything to keep.
  predicate TakesSnapshot(cfg: Config, db: Db, p: string, force: bool, next: Option<Bytes>) {
    && IsFile(db.entries, p)
    && var row := db.entries[p];
       && row.content != [] && next != Some(row.content)
       && (force || (Versionable(cfg, row, p)
                     && !(var h := History(db, p);
                          h != [] && h[|h| - 1].reason.Overwrite? && h[|h| - 1].content == row.content)))
  }

  function SnapshotOverwrite(cfg: Config, db: Db, p: string, force: bool, next: Option<Bytes>, reaper: Reaper)
    : (r: (Db, Option<nat>))
  {
    if !TakesSnapshot(cfg, db, p, force, next) then (db, None)
    else
      var row, no := db.entries[p], NextNo(cfg, db, p);
      var kept := Evict(cfg, Push(db, p, Version(no, Overwrite, row.content, row.mime)), reaper);
      (kept, if Spared(reaper, p, no) then Some(no) else None)
  }

  // snapshotRemovedFiles: every file about to go, unconditionally.
  function SnapshotRemoved(cfg: Config, db: Db, files: set<string>, reaper: Reaper): (r: (Db, set<string>))
    requires forall p :: p in files ==> p in db.entries
  {
    var taken := db.(history := map p | p in db.history.Keys + files ::
      if p in files
      then History(db, p) + [Version(NextNo(cfg, db, p), Deletion, db.entries[p].content, db.entries[p].mime)]
      else db.history[p]);
    (Evict(cfg, taken, reaper), set p | p in files && !Spared(reaper, p, NextNo(cfg, db, p)))
  }

  // ---- the transactions -------------------------------------------------------------------

  // mkdir -p, the quota, the row: the tail write() and restore() share.
  function Place(cfg: Config, db: Db, p: string, content: Bytes, mime: string, keepMime: bool): Result<Db> {
    var before := if p in db.entries then db.entries[p].size else 0;
    var entries1 :- MkdirChain(db.entries, ParentOf(p));
    var usage :- BumpUsage(db.usage, |content| - before, cfg.quota);
    var entries2 :- PutFile(entries1, p, content, mime, keepMime);
    Ok(db.(entries := entries2, usage := usage))
  }

  function MimeOr(cfg: Config, mime: Option<string>, p: string): string {
    match mime case Some(m) => m case None => cfg.mimeFromPath(p)
  }

  function Essence(cfg: Config, mime: Option<string>): Option<string> {
    match mime case Some(m) => cfg.essence(m) case None => None
  }

  function Write(cfg: Config, db: Db, ctx: Ctx, p: string, bytes: Bytes, mime: Option<string>,
                 reaper: Reaper): Result<Db> {
    if p == "/" then Err(EISDIR)
    else
      var _ :- AssertWritable(ctx, p);
      if |bytes| > MAX_FILE_BYTES then Err(EFBIG)
      else
        var declared := Essence(cfg, mime);
        var _ :- AssertNotLocked(db.entries, p, false);
        if IsDir(db.entries, p) then Err(EISDIR)
        else
          var db1 := SnapshotOverwrite(cfg, db, p, false, Some(bytes), reaper).0;
          Place(cfg, db1, p, bytes, MimeOr(cfg, declared, p), declared.None?)
  }

  // UPDATE … content = content || $2, or the INSERT when there is no such file; then the quota.
  function Extend(cfg: Config, db: Db, p: string, bytes: Bytes): Result<Db> {
    if IsFile(db.entries, p) then
      var row := db.entries[p];
      if |row.content| + |bytes| > MAX_FILE_BYTES then Err(EFBIG)
      else if !IsDir(db.entries, ParentOf(p)) then Err(ENOTDIR)
      else
        var usage :- BumpUsage(db.usage, |bytes|, cfg.quota);
        Ok(db.(entries := db.entries[p := row.(content := row.content + bytes, size := row.size + |bytes|)],
               usage := usage))
    else if IsDir(db.entries, p) then Err(EISDIR)
    else
      var entries1 :- MkdirChain(db.entries, ParentOf(p));
      var entries2 :- PutFile(entries1, p, bytes, cfg.mimeFromPath(p), false);
      var usage :- BumpUsage(db.usage, |bytes|, cfg.quota);
      Ok(db.(entries := entries2, usage := usage))
  }

  function Append(cfg: Config, db: Db, ctx: Ctx, p: string, bytes: Bytes, reaper: Reaper): Result<Db> {
    var _ :- AssertWritable(ctx, p);
    if |bytes| > MAX_FILE_BYTES then Err(EFBIG)
    else
      var _ :- AssertNotLocked(db.entries, p, false);
      var db1 := if |bytes| > 0 then SnapshotOverwrite(cfg, db, p, false, None, reaper).0 else db;
      Extend(cfg, db1, p, bytes)
  }

  function Mkdir(db: Db, ctx: Ctx, p: string): Result<Db> {
    if p == "/" || p == "/shared" || p == "/home" then Ok(db)
    else
      var _ :- AssertWritable(ctx, p);
      if IsDir(db.entries, p) then Ok(db)
      else
        var _ :- AssertNotLocked(db.entries, p, false);
        var entries1 :- MkdirChain(db.entries, p);
        if IsDir(entries1, p) then Ok(db.(entries := entries1)) else Err(EEXIST)
  }

  predicate HasChild(entries: map<string, Row>, p: string) {
    exists q :: q in entries && entries[q].parent == p
  }

  function Doomed(entries: map<string, Row>, p: string, recursive: bool): set<string> {
    set q | q in entries && (q == p || (recursive && Under(q, p)))
  }

  function FilesOf(entries: map<string, Row>, s: set<string>): set<string> {
    set q | q in s && IsFile(entries, q)
  }

  // The sizes of a set of rows, files only, as rm adds them up.
  ghost function Total(entries: map<string, Row>): nat {
    if entries == map[] then 0
    else
      var p :| p in entries;
      SizeOf(entries[p]) + Total(entries - {p})
  }

  function SizeOf(r: Row): nat { if r.kind.File? then r.size else 0 }

  datatype RmDone = RmDone(db: Db, removed: nat, unrecoverable: set<string>)

  ghost function Rm(cfg: Config, db: Db, ctx: Ctx, p: string, recursive: bool, reaper: Reaper): Result<RmDone> {
    var _ :- AssertWritable(ctx, p);
    var _ :- AssertNotLocked(db.entries, p, recursive);
    if p !in db.entries then Err(ENOENT)
    else if db.entries[p].kind.Dir? && !recursive && HasChild(db.entries, p) then Err(ENOTEMPTY)
    else
      var doomed := Doomed(db.entries, p, recursive);
      var (db1, lost) := SnapshotRemoved(cfg, db, FilesOf(db.entries, doomed), reaper);
      var gone := map q | q in doomed :: db.entries[q];
      Ok(RmDone(db1.(entries := db.entries - doomed, usage := db1.usage - Total(gone)), |doomed|, lost))
  }

  // The one UPDATE over the subtree. A row lands at q when its old path is q with t's prefix undone.
  function MovedRow(r: Row, p: string, f: string, t: string): Row {
    if p == f then r.(parent := ParentOf(t), name := BaseName(t))
    else r.(parent := Rewrite(r.parent, f, t))
  }

  function Moved(entries: map<string, Row>, f: string, t: string): map<string, Row> {
    var image := set p | p in entries && AtOrUnder(p, f) :: Rewrite(p, f, t);
    map q | q in image && Rewrite(q, t, f) in entries ::
      MovedRow(entries[Rewrite(q, t, f)], Rewrite(q, t, f), f, t)
  }

  function Unmoved(entries: map<string, Row>, f: string): map<string, Row> {
    map p | p in entries && !AtOrUnder(p, f) :: entries[p]
  }

  function Rename(cfg: Config, db: Db, ctx: Ctx, f: string, t: string, reaper: Reaper): Result<Db> {
    if f == t then Ok(db)
    else if Under(t, f) then Err(EINVAL)
    else
      var _ :- AssertWritable(ctx, f);
      var _ :- AssertWritable(ctx, t);
      var _ :- AssertNotLocked(db.entries, f, true);
      var _ :- AssertNotLocked(db.entries, t, true);
      if f !in db.entries then Err(ENOENT)
      else if t in db.entries && !(IsFile(db.entries, f) && IsFile(db.entries, t)) then Err(EEXIST)
      else
        var db1 :=
          if t in db.entries then
            var db0 := SnapshotRemoved(cfg, db, {t}, reaper).0;
            db0.(entries := db.entries - {t}, usage := db0.usage - db.entries[t].size)
          else db;
        var entries1 :- MkdirChain(db1.entries, ParentOf(t));
        if !IsDir(entries1, ParentOf(t)) then Err(ENOTDIR)
        else Ok(db1.(entries := Unmoved(entries1, f) + Moved(entries1, f, t)))
  }

  // ---- restore ------------------------------------------------------------------------------

  function VersionAt(h: seq<Version>, no: int): Option<Version> {
    if h == [] then None
    else if h[|h| - 1].no == no then Some(h[|h| - 1])
    else VersionAt(h[..|h| - 1], no)
  }

  // Newest whose bytes are not `live`.
  function NewestDiffering(h: seq<Version>, live: Bytes): Option<Version> {
    if h == [] then None
    else if h[|h| - 1].content != live then Some(h[|h| - 1])
    else NewestDiffering(h[..|h| - 1], live)
  }

  function Selected(h: seq<Version>, live: Option<Bytes>, named: Option<int>): Option<Version> {
    if named.Some? then VersionAt(h, named.value)
    else if h == [] then None
    else if live.Some? && NewestDiffering(h, live.value).Some? then NewestDiffering(h, live.value)
    else Some(h[|h| - 1])
  }

  datatype RestoreDone = RestoreDone(db: Db, restoredFrom: nat, preserved: Option<nat>)

  function Restore(cfg: Config, db: Db, ctx: Ctx, p: string, named: Option<int>, reaper: Reaper): Result<RestoreDone> {
    if named.Some? && named.value < 1 then Err(EINVAL)
    else if named.Some? && named.value > MAX_VERSION_NO then Err(ENOENT)
    else
      var _ :- AssertWritable(ctx, p);
      var _ :- AssertNotLocked(db.entries, p, false);
      if IsDir(db.entries, p) then Err(EISDIR)
      else
        var live := if p in db.entries then Some(db.entries[p].content) else None;
        match Selected(History(db, p), live, named)
        case None => Err(ENOENT)
        case Some(v) =>
          if live.Some? && v.reason.Deletion? then Err(EEXIST)
          else
            var (db1, preserved) :=
              if live.Some? then SnapshotOverwrite(cfg, db, p, true, Some(v.content), reaper) else (db, None);
            var db2 :- Place(cfg, db1, p, v.content, MimeOr(cfg, Essence(cfg, v.mime), p), false);
            Ok(RestoreDone(db2, v.no, preserved))
  }

  // ---- locks ----------------------------------------------------------------------------------

  function Lock(db: Db, ctx: Ctx, p: string): Result<Db> {
    var _ :- AssertWritable(ctx, p);
    if p !in db.entries then Err(ENOENT)
    else
      var holder := db.entries[p].lockedBy;
      if holder.Some? && holder.value != ctx.actor && !ctx.isOwner then Err(EREFUSED)
      else Ok(db.(entries := db.entries[p := db.entries[p].(lockedBy := Some(ctx.actor))]))
  }

  function Unlock(db: Db, ctx: Ctx, p: string): Result<Db> {
    var _ :- AssertWritable(ctx, p);
    if !Locked(db.entries, p) then Ok(db)
    else if db.entries[p].lockedBy.value != ctx.actor && !ctx.isOwner then Err(EREFUSED)
    else Ok(db.(entries := db.entries[p := db.entries[p].(lockedBy := None)]))
  }
}
