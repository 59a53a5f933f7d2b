// The trash: an rm, then restores of what it removed, in any order.
module FsTrash {
  import opened Options
  import opened Paths
  import opened FsDb
  import opened FsTree
  import opened FsLocks
  import opened FsUndo
  import opened FsReaper
  import opened Lists

  // mkdir -p of dir will find its fixed root and no file in the way.
  ghost predicate Open(entries: map<string, Row>, dir: string)
    decreases |dir|
  {
    if FixedRoot(dir) || |ParentOf(dir)| >= |dir| then IsDir(entries, dir)
    else Open(entries, ParentOf(dir)) && (dir in entries ==> IsDir(entries, dir))
  }

  lemma {:induction false} OpenChain(entries: map<string, Row>, dir: string)
    requires Open(entries, dir)
    ensures MkdirChain(entries, dir).Ok? && IsDir(MkdirChain(entries, dir).value, dir)
    ensures forall p :: p in entries ==>
              p in MkdirChain(entries, dir).value && MkdirChain(entries, dir).value[p] == entries[p]
    ensures forall p :: p in MkdirChain(entries, dir).value && p !in entries ==>
              MkdirChain(entries, dir).value[p] == DirRow(p)
    decreases |dir|
  {
    hide ParentOf, FixedRoot, BaseName;
    if !FixedRoot(dir) && |ParentOf(dir)| < |dir| { OpenChain(entries, ParentOf(dir)); }
  }

  // Rows added elsewhere leave the way open: new directories, or files not on it.
  lemma {:induction false} OpenStays(entries: map<string, Row>, more: map<string, Row>, dir: string)
    requires Open(entries, dir) && IsPath(dir)
    requires forall p :: p in entries ==> p in more && more[p] == entries[p]
    requires forall p :: p in more && p !in entries && !more[p].kind.Dir? ==>
               IsPath(p) && p != "/" && !AtOrUnder(dir, p)
    ensures Open(more, dir)
    decreases |dir|
  {
    hide ParentOf, FixedRoot, IsPath, BaseName, Under;
    if !FixedRoot(dir) && |ParentOf(dir)| < |dir| {
      NotRoot(dir);
      PathParts(dir);
      var d := ParentOf(dir);
      forall p | p in more && p !in entries && !more[p].kind.Dir? ensures !AtOrUnder(d, p) {
        if AtOrUnder(d, p) { StepsUp(dir, p); }
      }
      OpenStays(entries, more, d);
    }
  }

  lemma StepsUp(dir: string, p: string)
    requires IsPath(dir) && dir != "/" && AtOrUnder(ParentOf(dir), p) && IsPath(p) && p != "/"
    ensures AtOrUnder(dir, p)
  {
    hide IsPath, ParentOf, BaseName, Under;
    PathParts(dir);
    if ParentOf(dir) == "/" { RootIsUnderNothing(p); }
    UnderTransitive(dir, ParentOf(dir), p);
  }

  // What a file held: its bytes, and the media type its row carried.
  datatype Held = Held(bytes: Bytes, mime: Option<string>)

  function HeldBy(row: Row): Held { Held(row.content, row.mime) }

  // The row a restore writes: the bytes, and the type again, or the path's own where none counts.
  function BackRow(cfg: Config, q: string, h: Held): Row {
    FileRow(q, h.bytes, MimeOr(cfg, Essence(cfg, h.mime), q))
  }

  // What it takes for a version-less restore to bring q back with these bytes and this type.
  ghost predicate Restorable(db: Db, ctx: Ctx, q: string, held: Held) {
    && IsPath(q) && q !in db.entries
    && History(db, q) != [] && History(db, q)[|History(db, q)| - 1].content == held.bytes
    && History(db, q)[|History(db, q)| - 1].mime == held.mime
    && |held.bytes| <= MAX_FILE_BYTES
    && AssertWritable(ctx, q).Ok? && !LockedSelfOrAbove(db.entries, q)
    && Open(db.entries, ParentOf(q))
  }

  lemma PlaceOnFree(cfg: Config, db: Db, p: string, content: Bytes, mime: string)
    requires WellFormed(db) && IsPath(p) && p != "/" && p !in db.entries && Open(db.entries, ParentOf(p))
    requires |content| <= MAX_FILE_BYTES && db.usage + |content| <= cfg.quota
    ensures Place(cfg, db, p, content, mime, false).Ok?
    ensures var after := Place(cfg, db, p, content, mime, false).value;
            && SameVersions(after, db) && after.usage == db.usage + |content|
            && OnlyAround(db.entries, after.entries, p)
            && p in after.entries && after.entries[p] == FileRow(p, content, mime)
            && forall q :: q in after.entries && q !in db.entries && q != p ==> after.entries[q] == DirRow(q)
  {
    hide IsPath, MkdirChain, ParentOf, BaseName, AtOrUnder, Open, FixedRoot, OnlyAround;
    OpenChain(db.entries, ParentOf(p));
    ChainMissesLeaf(db.entries, p);
    PlaceAround(cfg, db, p, content, mime, false);
  }

  lemma RestoreFree(cfg: Config, db: Db, ctx: Ctx, q: string, held: Held, reaper: Reaper)
    requires WellFormed(db) && Restorable(db, ctx, q, held) && db.usage + |held.bytes| <= cfg.quota
    ensures Restore(cfg, db, ctx, q, None, reaper).Ok?
    ensures var after := Restore(cfg, db, ctx, q, None, reaper).value.db;
            && SameVersions(after, db) && after.usage == db.usage + |held.bytes|
            && OnlyAround(db.entries, after.entries, q)
            && q in after.entries && after.entries[q] == BackRow(cfg, q, held)
            && forall x :: x in after.entries && x !in db.entries && x != q ==> after.entries[x] == DirRow(x)
  {
    hide IsPath, Place, ParentOf, LockedSelfOrAbove, LockedBelow, AssertWritable, Open, OnlyAround, Essence, MimeOr,
         WellFormed;
    WritableIsNotRoot(ctx, q);
    var h := History(db, q);
    PlaceOnFree(cfg, db, q, held.bytes, MimeOr(cfg, Essence(cfg, h[|h| - 1].mime), q));
  }

  // ---- what an rm leaves behind --------------------------------------------------------------

  // No writable path has a fixed root at or below it.
  lemma RootsStay(ctx: Ctx, p: string, d: string)
    requires AssertWritable(ctx, p).Ok? && AtOrUnder(d, p)
    ensures !FixedRoot(d)
  {
    UnderLength(d, p);
    if "/shared/" <= p {
      assert d[..8] == p[..8] == "/shared/";
      assert d[1] == 's';
    } else {
      var mount := "/home/" + ctx.slug.value + "/";
      assert mount <= p && |mount| >= 7;
      assert d[|mount| - 1] == p[|mount| - 1] == mount[|mount| - 1] == '/';
    }
  }

  lemma {:induction false} OpenAfterRemoval(ctx: Ctx, entries: map<string, Row>, p: string, recursive: bool, d: string)
    requires Tree(entries) && AssertWritable(ctx, p).Ok? && IsPath(p) && IsPath(d) && IsDir(entries, d)
    requires IsFile(entries, p) || recursive || !HasChild(entries, p)
    ensures Open(entries - Doomed(entries, p, recursive), d)
    decreases |d|
  {
    hide ParentOf, FixedRoot, IsPath, BaseName, Under, AssertWritable, HasChild;
    var rest := entries - Doomed(entries, p, recursive);
    if FixedRoot(d) {
      if AtOrUnder(d, p) { RootsStay(ctx, p, d); }
    } else {
      NotRoot(d);
      PathParts(d);
      TreeRow(entries, d);
      OpenAfterRemoval(ctx, entries, p, recursive, ParentOf(d));
    }
  }

  lemma WritableBelow(ctx: Ctx, p: string, q: string)
    requires AssertWritable(ctx, p).Ok? && AtOrUnder(q, p)
    ensures AssertWritable(ctx, q).Ok?
  {
    UnderLength(q, p);
    if "/shared/" <= p {
      assert q[..8] == p[..8];
    } else {
      var mount := "/home/" + ctx.slug.value + "/";
      assert q[..|mount|] == p[..|mount|];
      assert q[..6] == p[..6] == "/home/";
      assert q[1] == 'h';
    }
  }

  lemma UnlockedAfterRemoval(entries: map<string, Row>, p: string, recursive: bool, q: string)
    requires AssertNotLocked(entries, p, recursive).Ok? && q in Doomed(entries, p, recursive)
    ensures !LockedSelfOrAbove(entries - Doomed(entries, p, recursive), q)
  {
    hide Under;
    var rest := entries - Doomed(entries, p, recursive);
    forall e | e in rest && Locked(rest, e) ensures !AtOrUnder(q, e) {
      assert Locked(entries, e);
      OutsideTheLock(entries, p, e);
      if AtOrUnder(q, e) && recursive { Comparable(q, p, e); }
    }
  }

  // The trash row an rm writes for q, and what housekeeping leaves of it.
  lemma TrashHolds(cfg: Config, db: Db, files: set<string>, reaper: Reaper, q: string)
    requires (forall p :: p in files ==> p in db.entries) && q in files
    requires q !in SnapshotRemoved(cfg, db, files, reaper).1
    ensures var h := History(SnapshotRemoved(cfg, db, files, reaper).0, q);
            h != [] && h[|h| - 1].content == db.entries[q].content && h[|h| - 1].mime == db.entries[q].mime
  {
    hide Evict, NextNo, Spared;
    EvictKeepsNewest(cfg, Trashed(cfg, db, files), q, reaper);
  }

  // The files a removal took and did not list as unrecoverable.
  ghost function Recoverable(cfg: Config, db: Db, ctx: Ctx, p: string, recursive: bool, reaper: Reaper): set<string>
    requires Rm(cfg, db, ctx, p, recursive, reaper).Ok?
  {
    FilesOf(db.entries, Doomed(db.entries, p, recursive)) - Rm(cfg, db, ctx, p, recursive, reaper).value.unrecoverable
  }

  lemma RemovedIsRestorable(cfg: Config, db: Db, ctx: Ctx, p: string, recursive: bool, reaper: Reaper, q: string)
    requires WellFormed(db) && IsPath(p) && Rm(cfg, db, ctx, p, recursive, reaper).Ok?
    requires q in Recoverable(cfg, db, ctx, p, recursive, reaper)
    ensures Restorable(Rm(cfg, db, ctx, p, recursive, reaper).value.db, ctx, q, HeldBy(db.entries[q]))
  {
    hide ParentOf, FixedRoot, IsPath, BaseName, Under, AssertWritable, HasChild, SnapshotRemoved, AssertNotLocked,
         Open, LockedSelfOrAbove, Total, Rm;
    RmShape(cfg, db, ctx, p, recursive, reaper);
    var doomed := Doomed(db.entries, p, recursive);
    var after := Rm(cfg, db, ctx, p, recursive, reaper).value.db;
    WritableBelow(ctx, p, q);
    WritableIsNotRoot(ctx, q);
    TreeRow(db.entries, q);
    PathParts(q);
    TrashHolds(cfg, db, FilesOf(db.entries, doomed), reaper, q);
    UnlockedAfterRemoval(db.entries, p, recursive, q);
    OpenAfterRemoval(ctx, db.entries, p, recursive, ParentOf(q));
  }

  lemma RmShape(cfg: Config, db: Db, ctx: Ctx, p: string, recursive: bool, reaper: Reaper)
    requires Rm(cfg, db, ctx, p, recursive, reaper).Ok?
    ensures var doomed := Doomed(db.entries, p, recursive);
            var after := Rm(cfg, db, ctx, p, recursive, reaper).value.db;
            && after.entries == db.entries - doomed
            && SameVersions(after, SnapshotRemoved(cfg, db, FilesOf(db.entries, doomed), reaper).0)
            && after.usage == db.usage - Total(map q | q in doomed :: db.entries[q])
    ensures AssertWritable(ctx, p).Ok? && AssertNotLocked(db.entries, p, recursive).Ok?
    ensures p in db.entries && (IsFile(db.entries, p) || recursive || !HasChild(db.entries, p))
    ensures Rm(cfg, db, ctx, p, recursive, reaper).value.unrecoverable
         == SnapshotRemoved(cfg, db, FilesOf(db.entries, Doomed(db.entries, p, recursive)), reaper).1
  {
    hide AssertWritable, HasChild, AssertNotLocked, Total, NextNo, Survivors, ReapedMax;
  }

  // ---- restoring, one by one, in any order -------------------------------------------------------

  function RestoreEach(cfg: Config, db: Db, ctx: Ctx, qs: seq<string>, reaper: Reaper): Result<Db>
    decreases |qs|
  {
    if qs == [] then Ok(db)
    else
      var done :- Restore(cfg, db, ctx, qs[0], None, reaper);
      RestoreEach(cfg, done.db, ctx, qs[1..], reaper)
  }

  ghost predicate Apart(q: string, p: string) { !AtOrUnder(q, p) && !AtOrUnder(p, q) }

  // Distinct files of one tree: none at or below another.
  ghost predicate Antichain(qs: seq<string>) {
    forall i, j :: 0 <= i < |qs| && 0 <= j < |qs| && i != j ==> Apart(qs[i], qs[j])
  }

  ghost function Sizes(qs: seq<string>, files: map<string, Held>): nat
    requires forall q :: q in qs ==> q in files
  {
    if qs == [] then 0 else |files[qs[0]].bytes| + Sizes(qs[1..], files)
  }

  // What one restore does to the world, as the others see it.
  ghost predicate Returned(before: Db, after: Db, p: string) {
    && SameVersions(after, before) && OnlyAround(before.entries, after.entries, p)
    && !Locked(after.entries, p)
    && forall x :: x in after.entries && x !in before.entries && x != p ==> after.entries[x] == DirRow(x)
  }

  lemma OthersStayRestorable(before: Db, after: Db, ctx: Ctx, p: string, q: string, held: Held)
    requires Restorable(before, ctx, q, held) && Returned(before, after, p) && Apart(q, p)
    requires IsPath(p) && p != "/" && p !in before.entries
    ensures Restorable(after, ctx, q, held)
  {
    hide IsPath, ParentOf, BaseName, Under, FixedRoot, AssertWritable, Open;
    WritableIsNotRoot(ctx, q);
    PathParts(q);
    if AtOrUnder(ParentOf(q), p) { StepsUp(q, p); }
    OpenStays(before.entries, after.entries, ParentOf(q));
    forall e | e in after.entries && Locked(after.entries, e)
      ensures e in before.entries && Locked(before.entries, e) {}
  }

  // A file already back is not disturbed by the next one.
  ghost predicate Holds(cfg: Config, db: Db, files: map<string, Held>, q: string) {
    q in files && q in db.entries && db.entries[q] == BackRow(cfg, q, files[q])
  }

  lemma {:induction false} RestoreEachWorks(
    cfg: Config, db: Db, ctx: Ctx, qs: seq<string>, files: map<string, Held>, reaper: Reaper)
    requires WellFormed(db) && Antichain(qs) && (forall q :: q in qs ==> q in files)
    requires forall q :: q in qs ==> Restorable(db, ctx, q, files[q])
    requires db.usage + Sizes(qs, files) <= cfg.quota
    ensures var r := RestoreEach(cfg, db, ctx, qs, reaper);
            && r.Ok? && WellFormed(r.value) && r.value.usage == db.usage + Sizes(qs, files)
            && (forall q :: q in qs ==> Holds(cfg, r.value, files, q))
            && forall x :: x in db.entries ==> x in r.value.entries && r.value.entries[x] == db.entries[x]
    decreases |qs|
  {
    hide IsPath, Restore, WellFormed, Restorable, Apart, AssertWritable, LockedSelfOrAbove, SameVersions;
    if qs != [] {
      var p, rest := qs[0], qs[1..];
      assert Restorable(db, ctx, p, files[p]);
      RestorableIsPath(db, ctx, p, files[p]);
      RestoreFree(cfg, db, ctx, p, files[p], reaper);
      RestoreKeeps(cfg, db, ctx, p, None, reaper);
      var next := Restore(cfg, db, ctx, p, None, reaper).value.db;
      forall q | q in rest ensures Restorable(next, ctx, q, files[q]) {
        assert q in qs;
        TailApart(qs, q);
        OthersStayRestorable(db, next, ctx, p, q, files[q]);
      }
      RestoreEachWorks(cfg, next, ctx, rest, files, reaper);
    }
  }

  lemma RestorableIsPath(db: Db, ctx: Ctx, p: string, held: Held)
    requires Restorable(db, ctx, p, held)
    ensures IsPath(p) && p != "/" && p !in db.entries
  {
    hide IsPath, History, Open;
    WritableIsNotRoot(ctx, p);
  }

  lemma TailApart(qs: seq<string>, q: string)
    requires qs != [] && Antichain(qs) && q in qs[1..]
    ensures Apart(q, qs[0])
  {
    hide Apart;
    var i :| 0 <= i < |qs| - 1 && qs[1..][i] == q;
    assert qs[i + 1] == q;
  }

  // ---- rm, then restore everything, in any order ----------------------------------------------------

  lemma {:induction false} SizesWithin(part: map<string, Row>, qs: seq<string>, files: map<string, Held>)
    requires NoRepeats(qs) && (forall q :: q in qs ==> q in files)
    requires forall q :: q in qs ==> IsFile(part, q) && part[q].size == |files[q].bytes|
    ensures Sizes(qs, files) <= Total(part)
    decreases |qs|
  {
    if qs != [] {
      TotalRemove(part, qs[0]);
      forall q | q in qs[1..] ensures q != qs[0] && q in qs {}
      SizesWithin(part - {qs[0]}, qs[1..], files);
    }
  }

  lemma FilesAreApart(entries: map<string, Row>, q: string, p: string)
    requires Tree(entries) && IsFile(entries, q) && IsFile(entries, p) && q != p
    ensures Apart(q, p)
  {
    hide IsPath, Under, ParentOf, BaseName;
    TreeRow(entries, p);
    TreeRow(entries, q);
    NothingBelow(entries, p);
    NothingBelow(entries, q);
  }

  ghost function HeldBefore(entries: map<string, Row>): map<string, Held> {
    map q | q in entries :: HeldBy(entries[q])
  }

  // After an rm, restoring any of the files it did not list as unrecoverable, each once and in any
  // order, succeeds and ends with every one of them back, byte for byte, under the type it had (or its
  // path's own), and the survivors untouched.
  lemma TrashComesBack(cfg: Config, db: Db, ctx: Ctx, p: string, recursive: bool, r1: Reaper, qs: seq<string>,
                       r2: Reaper)
    requires WellFormed(db) && IsPath(p) && Rm(cfg, db, ctx, p, recursive, r1).Ok? && db.usage <= cfg.quota
    requires NoRepeats(qs) && forall q :: q in qs ==> q in Recoverable(cfg, db, ctx, p, recursive, r1)
    ensures var gone := Rm(cfg, db, ctx, p, recursive, r1).value.db;
            var r := RestoreEach(cfg, gone, ctx, qs, r2);
            && r.Ok? && WellFormed(r.value)
            && (forall q :: q in qs ==> Holds(cfg, r.value, HeldBefore(db.entries), q))
            && forall x :: x in gone.entries ==> x in r.value.entries && r.value.entries[x] == db.entries[x]
  {
    hide IsPath, Under, ParentOf, BaseName, Rm, Restorable, AssertWritable, RestoreEach, Apart, AssertNotLocked, IsFile,
         Total, Holds;
    var doomed := Doomed(db.entries, p, recursive);
    var gone := Rm(cfg, db, ctx, p, recursive, r1).value.db;
    var files := HeldBefore(db.entries);
    RmKeeps(cfg, db, ctx, p, recursive, r1);
    RmShape(cfg, db, ctx, p, recursive, r1);
    var part := map q | q in doomed :: db.entries[q];
    forall q | q in qs
      ensures IsFile(part, q) && part[q].size == |files[q].bytes| && Restorable(gone, ctx, q, files[q])
    {
      RecoverableIsFile(cfg, db, ctx, p, recursive, r1, q);
      RemovedIsRestorable(cfg, db, ctx, p, recursive, r1, q);
    }
    forall i, j | 0 <= i < |qs| && 0 <= j < |qs| && i != j ensures Apart(qs[i], qs[j]) {
      assert qs[i] in qs && qs[j] in qs;
      RecoverableIsFile(cfg, db, ctx, p, recursive, r1, qs[i]);
      RecoverableIsFile(cfg, db, ctx, p, recursive, r1, qs[j]);
      FilesAreApart(db.entries, qs[i], qs[j]);
    }
    SizesWithin(part, qs, files);
    RestoreEachWorks(cfg, gone, ctx, qs, files, r2);
  }

  lemma RecoverableIsFile(cfg: Config, db: Db, ctx: Ctx, p: string, recursive: bool, reaper: Reaper, q: string)
    requires WellFormed(db) && Rm(cfg, db, ctx, p, recursive, reaper).Ok?
    requires q in Recoverable(cfg, db, ctx, p, recursive, reaper)
    ensures q in Doomed(db.entries, p, recursive) && IsFile(db.entries, q)
            && db.entries[q].size == |db.entries[q].content|
    ensures IsFile(map x | x in Doomed(db.entries, p, recursive) :: db.entries[x], q)
  {
    hide Rm, Under, IsPath;
    TreeRow(db.entries, q);
  }

  // ---- what an rm could not keep -----------------------------------------------------------------

  predicate FilesIn(db: Db, files: set<string>) {
    forall q :: q in files ==> q in db.entries && db.entries[q].kind.File?
  }

  // The trash rows one removal writes, by path and number.
  ghost function TrashIds(cfg: Config, db: Db, files: set<string>): set<(string, nat)> {
    set q | q in files :: (q, NextNo(cfg, db, q))
  }

  // The rows of an operation, in the order its pass takes them, are exactly these files.
  ghost predicate Covers(rows: seq<Kept>, part: map<string, Row>) {
    && (forall i, j :: 0 <= i < j < |rows| ==> rows[i].path != rows[j].path)
    && (forall k :: k in rows ==> IsFile(part, k.path) && k.size == part[k.path].size && !k.overwrite)
    && forall q :: IsFile(part, q) ==> exists k :: k in rows && k.path == q
  }

  lemma {:induction false} NoFilesNoBytes(part: map<string, Row>)
    requires forall q :: !IsFile(part, q)
    ensures Total(part) == 0
  {
    if part != map[] {
      var q :| q in part;
      TotalRemove(part, q);
      assert !IsFile(part, q);
      forall x ensures !IsFile(part - {q}, x) { assert !IsFile(part, x); }
      NoFilesNoBytes(part - {q});
    }
  }

  lemma {:induction false} WeightIsTotal(rows: seq<Kept>, part: map<string, Row>)
    requires Covers(rows, part)
    ensures Weight(rows) == Total(part)
    decreases |rows|
  {
    if rows == [] {
      NoFilesNoBytes(part);
    } else {
      var q := rows[0].path;
      TotalRemove(part, q);
      CoversRest(rows, part);
      WeightIsTotal(rows[1..], part - {q});
    }
  }

  lemma OthersInRest(rows: seq<Kept>)
    requires rows != [] && forall i, j :: 0 <= i < j < |rows| ==> rows[i].path != rows[j].path
    ensures forall i, j :: 0 <= i < j < |rows[1..]| ==> rows[1..][i].path != rows[1..][j].path
    ensures forall k :: k in rows[1..] <==> k in rows && k.path != rows[0].path
  {
    var rest := rows[1..];
    assert forall i :: 0 <= i < |rest| ==> rest[i] == rows[i + 1];
    forall k | k in rest ensures k in rows && k.path != rows[0].path {
      var i :| 0 <= i < |rest| && rest[i] == k;
      assert rows[0].path != rows[i + 1].path;
    }
    forall k | k in rows && k.path != rows[0].path ensures k in rest {
      var i :| 0 <= i < |rows| && rows[i] == k;
      assert rest[i - 1] == k;
    }
  }

  lemma CoversRest(rows: seq<Kept>, part: map<string, Row>)
    requires Covers(rows, part) && rows != []
    ensures Covers(rows[1..], part - {rows[0].path})
  {
    OthersInRest(rows);
    var rest, p := rows[1..], rows[0].path;
    forall q | IsFile(part - {p}, q) ensures exists k :: k in rest && k.path == q {
      assert IsFile(part, q);
      var k :| k in rows && k.path == q;
    }
  }

  // In the table after an rm its own rows are the trash rows, one a file.
  lemma TrashRow(cfg: Config, db: Db, files: set<string>, others: seq<Kept>, mine: seq<Kept>, k: Kept)
    requires Numbered(db) && FilesIn(db, files) && k in mine
    requires Table(Trashed(cfg, db, files), others, mine, TrashIds(cfg, db, files))
    ensures k.path in files && k == Kept(k.path, NextNo(cfg, db, k.path), |db.entries[k.path].content|, false)
  {
    hide NextNo;
    var t, q := Trashed(cfg, db, files), k.path;
    assert k in others + mine;
    var v :| v in History(t, q) && k == KeptOf(q, v);
    if v in History(db, q) {
      NoAboveLast(History(db, q), v);
      LastIsBelowNext(cfg, db, q);
    }
  }

  lemma LastIsBelowNext(cfg: Config, db: Db, q: string)
    ensures LastNo(History(db, q)) < NextNo(cfg, db, q)
  {
  }

  lemma TrashRowOfFile(cfg: Config, db: Db, files: set<string>, others: seq<Kept>, mine: seq<Kept>, q: string)
    requires FilesIn(db, files) && q in files
    requires Table(Trashed(cfg, db, files), others, mine, TrashIds(cfg, db, files))
    ensures exists k :: k in mine && k.path == q
  {
    hide NextNo;
    var t, v := Trashed(cfg, db, files),
        Version(NextNo(cfg, db, q), Deletion, db.entries[q].content, db.entries[q].mime);
    assert v in t.history[q];
    assert KeptOf(q, v) in others + mine;
    assert Id(KeptOf(q, v)) in TrashIds(cfg, db, files);
  }

  lemma TrashCovers(cfg: Config, db: Db, files: set<string>, others: seq<Kept>, mine: seq<Kept>)
    requires WellFormed(db) && Numbered(db) && FilesIn(db, files)
    requires Table(Trashed(cfg, db, files), others, mine, TrashIds(cfg, db, files))
    ensures Covers(mine, map q | q in files :: db.entries[q])
    ensures forall k :: k in mine ==> !k.overwrite
  {
    hide NextNo, Numbered, WellFormed, Table, Trashed, TrashIds, Housekeep;
    var t, own := Trashed(cfg, db, files), TrashIds(cfg, db, files);
    forall k | k in mine
      ensures k.path in files && Id(k) == (k.path, NextNo(cfg, db, k.path)) && k.size == db.entries[k.path].size
              && !k.overwrite
    {
      TrashRow(cfg, db, files, others, mine, k);
      FileSize(db, k.path);
    }
    forall i, j | 0 <= i < j < |mine| ensures mine[i].path != mine[j].path {
      assert mine[i] in mine && mine[j] in mine;
      if mine[i].path == mine[j].path { SameId(t, others, mine, own, i, j); }
    }
    forall q | q in files
      ensures exists k :: k in mine && k.path == q
    {
      TrashRowOfFile(cfg, db, files, others, mine, q);
    }
  }

  lemma FileSize(db: Db, q: string)
    requires WellFormed(db) && IsFile(db.entries, q)
    ensures db.entries[q].size == |db.entries[q].content|
  {
    TreeRow(db.entries, q);
  }

  lemma {:induction false} Uncapped(rows: seq<Kept>, all: seq<Kept>, p: string, keep: nat)
    requires forall k :: k in rows ==> !k.overwrite
    ensures Capped(rows, all, p, keep) == rows
  {
    if rows != [] { Uncapped(rows[1..], all, p, keep); }
  }

  // An rm reports files as unrecoverable exactly when what it removed outweighs the whole version
  // budget: then, and only then, its own trash does not fit.
  lemma NothingReportedIff(cfg: Config, db: Db, files: set<string>, p: string, reaper: Reaper)
    requires WellFormed(db) && Numbered(db) && FilesIn(db, files)
    requires Housekept(cfg, Trashed(cfg, db, files), p, TrashIds(cfg, db, files), reaper)
    ensures SnapshotRemoved(cfg, db, files, reaper).1 == {}
       <==> reaper.Skipped? || Total(map q | q in files :: db.entries[q]) <= cfg.versionBudget
  {
    LostAre(cfg, db, files, reaper);
    hide SnapshotRemoved, Total, Numbered, WellFormed, Housekeep, Reclaimed, Table, Trashed, TrashIds, NextNo;
    if reaper.Reaped? {
      var t, own := Trashed(cfg, db, files), TrashIds(cfg, db, files);
      var others, mine :| Table(t, others, mine, own)
        && reaper.victims == Reclaimed(cfg, p, others, mine);
      TrashWeighs(cfg, db, files, p, others, mine);
      LostIsCut(cfg, t, p, others, mine, own);
    }
  }

  lemma LostAre(cfg: Config, db: Db, files: set<string>, reaper: Reaper)
    requires FilesIn(db, files)
    ensures SnapshotRemoved(cfg, db, files, reaper).1 == {}
       <==> reaper.Skipped? || TrashIds(cfg, db, files) !! reaper.victims
  {
    hide Evict, NextNo;
    var lost, own := SnapshotRemoved(cfg, db, files, reaper).1, TrashIds(cfg, db, files);
    if reaper.Reaped? {
      forall q | q in lost ensures (q, NextNo(cfg, db, q)) in own && (q, NextNo(cfg, db, q)) in reaper.victims {}
      forall x | x in own && x in reaper.victims ensures x.0 in lost {}
    }
  }

  lemma TrashWeighs(cfg: Config, db: Db, files: set<string>, p: string, others: seq<Kept>, mine: seq<Kept>)
    requires WellFormed(db) && Numbered(db) && FilesIn(db, files)
    requires Table(Trashed(cfg, db, files), others, mine, TrashIds(cfg, db, files))
    ensures Capped(mine, others + mine, p, cfg.versionKeep) == mine
    ensures Housekeep(cfg, p, others, mine).1 == mine
       <==> Total(map q | q in files :: db.entries[q]) <= cfg.versionBudget
  {
    hide Numbered, WellFormed, Table, Trashed, TrashIds, Housekeep, Covers, Capped, Total;
    TrashCovers(cfg, db, files, others, mine);
    WeightIsTotal(mine, map q | q in files :: db.entries[q]);
    Uncapped(mine, others + mine, p, cfg.versionKeep);
    OwnGoLast(cfg, p, others, mine);
  }

  // A pass takes of an operation's own rows the first ones, and of the others what it likes.
  lemma PassShape(cfg: Config, p: string, others: seq<Kept>, mine: seq<Kept>) returns (m: nat)
    requires Capped(mine, others + mine, p, cfg.versionKeep) == mine
    ensures var (o, w) := Housekeep(cfg, p, others, mine);
            m <= |mine| && w == mine[m..] && forall k :: k in o ==> k in others
  {
    var o := Housekeep(cfg, p, others, mine).0;
    var others1 := Capped(others, others + mine, p, cfg.versionKeep);
    var n := CutIsSuffix(others1, Weight(others1) + Weight(mine) - cfg.versionBudget);
    m := CutIsSuffix(mine, Weight(o) + Weight(mine) - cfg.versionBudget);
    hide Cut, Weight, OverCap;
    forall k | k in o ensures k in others { assert k in others1; }
  }

  lemma LostIsCut(cfg: Config, t: Db, p: string, others: seq<Kept>, mine: seq<Kept>, own: set<(string, nat)>)
    requires Table(t, others, mine, own) && Capped(mine, others + mine, p, cfg.versionKeep) == mine
    ensures own !! Reclaimed(cfg, p, others, mine) <==> Housekeep(cfg, p, others, mine).1 == mine
  {
    hide Housekeep, Capped, OverCap, Table, Ids;
    var m := PassShape(cfg, p, others, mine);
    var o := Housekeep(cfg, p, others, mine).0;
    if m > 0 { FirstIsGone(t, others, mine, own, o, m); } else { NoneIsGone(t, others, mine, own, o); }
  }

  lemma NoneIsGone(t: Db, others: seq<Kept>, mine: seq<Kept>, own: set<(string, nat)>, o: seq<Kept>)
    requires Table(t, others, mine, own)
    ensures own !! (Ids(others + mine) - Ids(o + mine[0..]))
  {
    forall k | k in others + mine && Id(k) in own ensures k in o + mine[0..] { assert k in mine; }
  }

  lemma FirstIsGone(t: Db, others: seq<Kept>, mine: seq<Kept>, own: set<(string, nat)>, o: seq<Kept>, m: nat)
    requires Table(t, others, mine, own) && 0 < m <= |mine| && forall k :: k in o ==> k in others
    ensures !(own !! (Ids(others + mine) - Ids(o + mine[m..])))
  {
    var k := mine[0];
    forall x | x in o + mine[m..] ensures Id(x) != Id(k) {
      if x in mine[m..] {
        var i :| m <= i < |mine| && mine[i] == x;
        if Id(mine[i]) == Id(k) { SameId(t, others, mine, own, i, 0); }
      } else {
        assert x in others;
      }
    }
    assert Id(k) in own && k in others + mine;
    assert Id(k) in Ids(others + mine);
  }

  // The same of a whole rm: it reports nothing exactly when the bytes it frees fit the version budget.
  lemma RmReportsIff(cfg: Config, db: Db, ctx: Ctx, p: string, recursive: bool, reaper: Reaper)
    requires WellFormed(db) && Numbered(db) && Rm(cfg, db, ctx, p, recursive, reaper).Ok?
    requires var files := FilesOf(db.entries, Doomed(db.entries, p, recursive));
             Housekept(cfg, Trashed(cfg, db, files), p, TrashIds(cfg, db, files), reaper)
    ensures var done := Rm(cfg, db, ctx, p, recursive, reaper).value;
            done.unrecoverable == {} <==> reaper.Skipped? || db.usage - done.db.usage <= cfg.versionBudget
  {
    hide AssertWritable, HasChild, AssertNotLocked, Total, NextNo, Evict, Housekept, WellFormed, Numbered, Under,
         Trashed, TrashIds;
    var doomed := Doomed(db.entries, p, recursive);
    var files := FilesOf(db.entries, doomed);
    NothingReportedIff(cfg, db, files, p, reaper);
    RmShape(cfg, db, ctx, p, recursive, reaper);
    DirsWeighNothing(map q | q in doomed :: db.entries[q], map q | q in files :: db.entries[q]);
  }

  lemma {:induction false} DirsWeighNothing(all: map<string, Row>, files: map<string, Row>)
    requires forall q :: q in files <==> IsFile(all, q)
    requires forall q :: q in files && q in all ==> files[q] == all[q]
    ensures Total(all) == Total(files)
  {
    if all == map[] {
      assert files == map[];
    } else {
      var q :| q in all;
      TotalRemove(all, q);
      if q in files { TotalRemove(files, q); }
      var rest, less := all - {q}, files - {q};
      forall x ensures x in less <==> IsFile(rest, x) { assert x in files <==> IsFile(all, x); }
      DirsWeighNothing(rest, less);
      if q !in files { assert less == files; assert !IsFile(all, q); }
    }
  }
}
