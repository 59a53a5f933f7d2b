// The tree and the byte counter: every transaction keeps fs_entries a tree of its own paths,
// and fs_usage the sum of its file sizes.
module FsTree {
  import opened Options
  import opened Paths
  import opened FsDb

  ghost predicate RowOk(entries: map<string, Row>, p: string)
    requires p in entries
  {
    var r := entries[p];
    && IsPath(p)
    && r.parent == ParentOf(p) && r.name == BaseName(p)
    && (if p == "/" then r.kind.Dir? else IsDir(entries, r.parent))
    && r.size == |r.content| <= MAX_FILE_BYTES && (r.kind.Dir? ==> r.content == [])
  }

  ghost predicate Tree(entries: map<string, Row>) {
    forall p :: p in entries ==> RowOk(entries, p)
  }

  ghost predicate WellFormed(db: Db) {
    Tree(db.entries) && db.usage == Total(db.entries)
  }

  // ---- sums ------------------------------------------------------------------------------

  lemma {:induction false} TotalRemove(entries: map<string, Row>, p: string)
    requires p in entries
    ensures Total(entries) == SizeOf(entries[p]) + Total(entries - {p})
  {
    var q :| q in entries && Total(entries) == SizeOf(entries[q]) + Total(entries - {q});
    if q != p {
      TotalRemove(entries - {q}, p);
      TotalRemove(entries - {p}, q);
      assert entries - {q} - {p} == entries - {p} - {q};
    }
  }

  lemma TotalPut(entries: map<string, Row>, p: string, r: Row)
    ensures Total(entries[p := r])
         == Total(entries) + SizeOf(r) - (if p in entries then SizeOf(entries[p]) else 0)
  {
    TotalRemove(entries[p := r], p);
    if p in entries {
      TotalRemove(entries, p);
      assert entries[p := r] - {p} == entries - {p};
    } else {
      assert entries[p := r] - {p} == entries;
    }
  }

  lemma {:induction false} TotalSplit(entries: map<string, Row>, s: set<string>)
    requires s <= entries.Keys
    ensures Total(entries) == Total(map q | q in s :: entries[q]) + Total(entries - s)
    decreases s
  {
    var part := map q | q in s :: entries[q];
    if s == {} {
      assert entries - s == entries && part == map[];
    } else {
      var p :| p in s;
      TotalSplit(entries, s - {p});
      assert (map q | q in s - {p} :: entries[q]) == part - {p};
      TotalRemove(part, p);
      TotalRemove(entries - (s - {p}), p);
      assert entries - (s - {p}) - {p} == entries - s;
    }
  }

  // ---- ancestors ----------------------------------------------------------------------------

  lemma {:induction false} AncestorsPresent(entries: map<string, Row>, p: string, d: string)
    requires Tree(entries) && p in entries && IsPath(d) && d != "/" && Under(p, d)
    ensures IsDir(entries, d)
    decreases |p|
  {
    hide IsPath, ParentOf, Under, BaseName;
    assert RowOk(entries, p);
    ParentUnder(p, d);
    PathParts(p);
    if ParentOf(p) != d { AncestorsPresent(entries, ParentOf(p), d); }
  }

  // Nothing hangs below a path that is absent or a file.
  lemma NothingBelow(entries: map<string, Row>, d: string)
    requires Tree(entries) && IsPath(d) && d != "/" && !IsDir(entries, d)
    ensures forall p :: p in entries ==> !Under(p, d)
  {
    hide IsPath, Under, ParentOf, BaseName, RowOk;
    forall p | p in entries && Under(p, d) ensures false { AncestorsPresent(entries, p, d); }
  }

  // ---- statements that keep the tree ------------------------------------------------------------

  lemma PutKeepsTree(entries: map<string, Row>, p: string, r: Row)
    requires Tree(entries) && IsPath(p) && p != "/" && IsDir(entries, ParentOf(p))
    requires r.parent == ParentOf(p) && r.name == BaseName(p) && r.size == |r.content| <= MAX_FILE_BYTES
    requires r.kind.Dir? ==> r.content == []
    requires IsDir(entries, p) ==> r.kind.Dir?
    ensures Tree(entries[p := r])
  {
    hide IsPath, ParentOf, BaseName;
    var after := entries[p := r];
    forall q | q in after ensures RowOk(after, q) {
      if q != p { assert RowOk(entries, q); }
    }
  }

  // What a chain of mkdirs may add: unlocked directories at or above `dir`, nothing else.
  ghost predicate Grown(entries: map<string, Row>, more: map<string, Row>, dir: string) {
    && (forall p :: p in entries ==> p in more && more[p] == entries[p])
    && forall p :: p in more && p !in entries ==> AtOrUnder(dir, p) && more[p] == DirRow(p)
  }

  lemma InsertDirKeeps(entries: map<string, Row>, d: string)
    requires Tree(entries) && IsPath(d) && d != "/" && InsertDir(entries, d).Ok?
    ensures var more := InsertDir(entries, d).value;
            && Tree(more) && Total(more) == Total(entries)
            && more == if d in entries then entries else entries[d := DirRow(d)]
  {
    hide IsPath, ParentOf, BaseName;
    if d !in entries {
      PutKeepsTree(entries, d, DirRow(d));
      TotalPut(entries, d, DirRow(d));
    }
  }

  lemma GrownOneMore(entries: map<string, Row>, above: map<string, Row>, dir: string)
    requires IsPath(dir) && dir != "/" && Grown(entries, above, ParentOf(dir))
    requires ParentOf(dir) == "/" ==> above == entries
    ensures Grown(entries, above, dir) && Grown(entries, if dir in above then above else above[dir := DirRow(dir)], dir)
  {
    hide IsPath, ParentOf, BaseName, Under;
    PathParts(dir);
    if ParentOf(dir) != "/" {
      forall p | p in above && p !in entries ensures AtOrUnder(dir, p) {
        UnderTransitive(dir, ParentOf(dir), p);
      }
    }
  }

  lemma {:induction false} MkdirChainKeeps(entries: map<string, Row>, dir: string)
    requires Tree(entries) && IsPath(dir) && MkdirChain(entries, dir).Ok?
    ensures var more := MkdirChain(entries, dir).value;
            && Tree(more) && Total(more) == Total(entries) && Grown(entries, more, dir)
            && (FixedRoot(dir) ==> more == entries)
    decreases |dir|
  {
    hide IsPath, ParentOf, BaseName, Under, FixedRoot, InsertDir, Tree, Grown;
    if FixedRoot(dir) {
      GrownByNothing(entries, dir);
    } else {
      NotRoot(dir);
      PathParts(dir);
      var above := MkdirChain(entries, ParentOf(dir)).value;
      MkdirChainKeeps(entries, ParentOf(dir));
      GrownOneMore(entries, above, dir);
      InsertDirKeeps(above, dir);
    }
  }

  lemma GrownByNothing(entries: map<string, Row>, dir: string)
    ensures Grown(entries, entries, dir)
  {
  }

  lemma NotRoot(dir: string)
    requires !FixedRoot(dir)
    ensures dir != "/"
    ensures FixedRoot("/")
  {
  }

  lemma PutFileKeeps(entries: map<string, Row>, p: string, content: Bytes, mime: string, keepMime: bool)
    requires Tree(entries) && IsPath(p) && p != "/" && !IsDir(entries, p)
    requires PutFile(entries, p, content, mime, keepMime).Ok?
    ensures var after := PutFile(entries, p, content, mime, keepMime).value;
            && Tree(after)
            && Total(after) == Total(entries) + |content| - (if p in entries then entries[p].size else 0)
  {
    hide IsPath, ParentOf, BaseName;
    var after := PutFile(entries, p, content, mime, keepMime).value;
    if p in entries { assert RowOk(entries, p); }
    PutKeepsTree(entries, p, after[p]);
    TotalPut(entries, p, after[p]);
  }

  lemma {:induction false} ChainNeverMisses(entries: map<string, Row>, dir: string)
    ensures MkdirChain(entries, dir) != Err(ENOENT)
    decreases |dir|
  {
    hide ParentOf, FixedRoot, BaseName;
    if !FixedRoot(dir) && |ParentOf(dir)| < |dir| { ChainNeverMisses(entries, ParentOf(dir)); }
  }

  // Making room above a path never touches the path itself.
  lemma ChainMissesLeaf(entries: map<string, Row>, p: string)
    requires Tree(entries) && IsPath(p) && p != "/" && MkdirChain(entries, ParentOf(p)).Ok?
    ensures var more := MkdirChain(entries, ParentOf(p)).value;
            && Tree(more) && Total(more) == Total(entries) && Grown(entries, more, ParentOf(p))
            && (p in more <==> p in entries) && (p in entries ==> more[p] == entries[p])
            && (ParentOf(p) == "/" ==> more == entries)
  {
    hide IsPath, ParentOf, BaseName, MkdirChain;
    PathParts(p);
    MkdirChainKeeps(entries, ParentOf(p));
    var more := MkdirChain(entries, ParentOf(p)).value;
    if p in more && p !in entries { UnderLength(ParentOf(p), p); }
  }

  lemma WritableIsNotRoot(ctx: Ctx, p: string)
    requires AssertWritable(ctx, p).Ok?
    ensures p != "/"
  {
  }

  lemma SnapshotFrame(cfg: Config, db: Db, p: string, force: bool, next: Option<Bytes>, reaper: Reaper)
    ensures var db1 := SnapshotOverwrite(cfg, db, p, force, next, reaper).0;
            db1.entries == db.entries && db1.usage == db.usage && (WellFormed(db) ==> WellFormed(db1))
  {
    hide TakesSnapshot, Survivors, ReapedMax, NextNo;
  }

  lemma PlaceKeeps(cfg: Config, db: Db, p: string, content: Bytes, mime: string, keepMime: bool)
    requires WellFormed(db) && IsPath(p) && p != "/" && !IsDir(db.entries, p)
    requires Place(cfg, db, p, content, mime, keepMime).Ok?
    ensures WellFormed(Place(cfg, db, p, content, mime, keepMime).value)
  {
    hide IsPath, ParentOf, MkdirChain, PutFile, Tree;
    ChainMissesLeaf(db.entries, p);
    PutFileKeeps(MkdirChain(db.entries, ParentOf(p)).value, p, content, mime, keepMime);
  }

  lemma ExtendKeeps(cfg: Config, db: Db, p: string, bytes: Bytes)
    requires WellFormed(db) && IsPath(p) && p != "/" && Extend(cfg, db, p, bytes).Ok?
    ensures WellFormed(Extend(cfg, db, p, bytes).value)
  {
    hide IsPath, ParentOf, BaseName, MkdirChain, PutFile, Tree;
    var after := Extend(cfg, db, p, bytes).value;
    if IsFile(db.entries, p) {
      TreeRow(db.entries, p);
      PutKeepsTree(db.entries, p, after.entries[p]);
      TotalPut(db.entries, p, after.entries[p]);
    } else {
      ChainMissesLeaf(db.entries, p);
      PutFileKeeps(MkdirChain(db.entries, ParentOf(p)).value, p, bytes, cfg.mimeFromPath(p), false);
    }
  }

  lemma WriteKeeps(cfg: Config, db: Db, ctx: Ctx, p: string, bytes: Bytes, mime: Option<string>, reaper: Reaper)
    requires WellFormed(db) && IsPath(p) && Write(cfg, db, ctx, p, bytes, mime, reaper).Ok?
    ensures WellFormed(Write(cfg, db, ctx, p, bytes, mime, reaper).value)
  {
    hide IsPath, Place, Tree, SnapshotOverwrite;
    SnapshotFrame(cfg, db, p, false, Some(bytes), reaper);
    var declared := Essence(cfg, mime);
    PlaceKeeps(cfg, SnapshotOverwrite(cfg, db, p, false, Some(bytes), reaper).0, p, bytes,
               MimeOr(cfg, declared, p), declared.None?);
  }

  lemma AppendKeeps(cfg: Config, db: Db, ctx: Ctx, p: string, bytes: Bytes, reaper: Reaper)
    requires WellFormed(db) && IsPath(p) && Append(cfg, db, ctx, p, bytes, reaper).Ok?
    ensures WellFormed(Append(cfg, db, ctx, p, bytes, reaper).value)
  {
    hide IsPath, Extend, Tree, SnapshotOverwrite;
    WritableIsNotRoot(ctx, p);
    SnapshotFrame(cfg, db, p, false, None, reaper);
    ExtendKeeps(cfg, if |bytes| > 0 then SnapshotOverwrite(cfg, db, p, false, None, reaper).0 else db, p, bytes);
  }

  lemma TreeRow(entries: map<string, Row>, p: string)
    requires Tree(entries) && p in entries
    ensures RowOk(entries, p)
  {
  }

  lemma MkdirKeeps(db: Db, ctx: Ctx, p: string)
    requires WellFormed(db) && IsPath(p) && Mkdir(db, ctx, p).Ok?
    ensures WellFormed(Mkdir(db, ctx, p).value)
  {
    hide IsPath, MkdirChain, Tree, AssertNotLocked, AssertWritable, Grown, FixedRoot, Total;
    if MkdirChain(db.entries, p).Ok? { MkdirChainKeeps(db.entries, p); }
  }

  lemma RestoreKeeps(cfg: Config, db: Db, ctx: Ctx, p: string, named: Option<int>, reaper: Reaper)
    requires WellFormed(db) && IsPath(p) && Restore(cfg, db, ctx, p, named, reaper).Ok?
    ensures WellFormed(Restore(cfg, db, ctx, p, named, reaper).value.db)
  {
    hide IsPath, Place, Tree, SnapshotOverwrite, Selected;
    WritableIsNotRoot(ctx, p);
    var live := if p in db.entries then Some(db.entries[p].content) else None;
    var v := Selected(History(db, p), live, named).value;
    SnapshotFrame(cfg, db, p, true, Some(v.content), reaper);
    var db1 := if live.Some? then SnapshotOverwrite(cfg, db, p, true, Some(v.content), reaper).0 else db;
    PlaceKeeps(cfg, db1, p, v.content, MimeOr(cfg, Essence(cfg, v.mime), p), false);
  }

  // ---- removal --------------------------------------------------------------------------------

  lemma RemovalKeepsTree(entries: map<string, Row>, p: string, recursive: bool)
    requires Tree(entries) && IsPath(p) && p != "/" && p in entries
    requires recursive || entries[p].kind.File? || !HasChild(entries, p)
    ensures Tree(entries - Doomed(entries, p, recursive))
  {
    hide IsPath, ParentOf, BaseName, Under;
    var rest := entries - Doomed(entries, p, recursive);
    forall q | q in rest ensures RowOk(rest, q) {
      assert RowOk(entries, q);
      if q != "/" && entries[q].parent !in rest {
        PathParts(q);
        OrphanIsDoomed(entries, p, q, recursive);
      }
    }
  }

  lemma OrphanIsDoomed(entries: map<string, Row>, p: string, q: string, recursive: bool)
    requires Tree(entries) && IsPath(p) && p != "/" && p in entries && q in entries && q != "/"
    requires recursive || entries[p].kind.File? || !HasChild(entries, p)
    requires entries[q].parent in Doomed(entries, p, recursive)
    ensures q in Doomed(entries, p, recursive)
  {
    hide IsPath, ParentOf, BaseName, Under;
    assert RowOk(entries, q);
    PathParts(q);
    var d := entries[q].parent;
    if d == "/" { RootIsUnderNothing(p); }
    UnderTransitive(q, d, p);
  }

  lemma RootIsUnderNothing(p: string)
    requires IsPath(p)
    ensures !Under("/", p)
  {
  }

  lemma RmKeeps(cfg: Config, db: Db, ctx: Ctx, p: string, recursive: bool, reaper: Reaper)
    requires WellFormed(db) && IsPath(p) && Rm(cfg, db, ctx, p, recursive, reaper).Ok?
    ensures WellFormed(Rm(cfg, db, ctx, p, recursive, reaper).value.db)
  {
    hide IsPath, Tree, AssertNotLocked, AssertWritable, HasChild;
    WritableIsNotRoot(ctx, p);
    RemovalKeepsTree(db.entries, p, recursive);
    TotalSplit(db.entries, Doomed(db.entries, p, recursive));
  }

  // ---- rename -----------------------------------------------------------------------------------

  // Where each row of the subtree lands.
  lemma MovedAt(entries: map<string, Row>, f: string, t: string, p: string)
    requires p in entries && AtOrUnder(p, f)
    ensures Rewrite(p, f, t) in Moved(entries, f, t)
    ensures Moved(entries, f, t)[Rewrite(p, f, t)] == MovedRow(entries[p], p, f, t)
  {
    hide AtOrUnder, Rewrite;
    RewriteBack(p, f, t);
  }

  // Every row that landed came from the subtree.
  lemma MovedFrom(entries: map<string, Row>, f: string, t: string, q: string) returns (p: string)
    requires q in Moved(entries, f, t)
    ensures p in entries && AtOrUnder(p, f) && q == Rewrite(p, f, t)
    ensures Moved(entries, f, t)[q] == MovedRow(entries[p], p, f, t)
  {
    hide AtOrUnder, Rewrite;
    p :| p in entries && AtOrUnder(p, f) && q == Rewrite(p, f, t);
    RewriteBack(p, f, t);
  }

  lemma {:induction false} TotalMoved(part: map<string, Row>, f: string, t: string)
    requires forall p :: p in part ==> AtOrUnder(p, f)
    ensures Total(Moved(part, f, t)) == Total(part)
    decreases |part|
  {
    hide AtOrUnder, Rewrite;
    var m := Moved(part, f, t);
    if part == map[] {
      assert m == map[];
    } else {
      var p :| p in part;
      var q := Rewrite(p, f, t);
      MovedAt(part, f, t, p);
      TotalMoved(part - {p}, f, t);
      TotalRemove(part, p);
      TotalRemove(m, q);
      MovedWithout(part, f, t, p);
    }
  }

  lemma MovedWithout(part: map<string, Row>, f: string, t: string, p: string)
    requires p in part && forall p :: p in part ==> AtOrUnder(p, f)
    ensures Moved(part - {p}, f, t) == Moved(part, f, t) - {Rewrite(p, f, t)}
  {
    hide AtOrUnder, Rewrite;
    forall x | x in part ensures Rewrite(Rewrite(x, f, t), t, f) == x { RewriteBack(x, f, t); }
  }

  // The prefix rewrite collides with nothing: no row can already be at or below its target.
  lemma NoCollision(entries: map<string, Row>, f: string, t: string)
    requires Tree(entries) && IsPath(f) && IsPath(t) && f != "/" && t != "/" && t !in entries
    ensures Moved(entries, f, t).Keys !! entries.Keys
  {
    hide IsPath, AtOrUnder, Rewrite, Moved, RowOk;
    forall q | q in Moved(entries, f, t) ensures q !in entries {
      var p := MovedFrom(entries, f, t, q);
      assert RowOk(entries, p);
      assert IsPath(p) by { PathOf(entries, p); }
      RewriteIsPath(p, f, t);
      LandsBelow(entries, t, q);
    }
  }

  lemma PathOf(entries: map<string, Row>, p: string)
    requires Tree(entries) && p in entries
    ensures IsPath(p)
  {
  }

  lemma LandsBelow(entries: map<string, Row>, t: string, q: string)
    requires Tree(entries) && IsPath(t) && t != "/" && t !in entries && AtOrUnder(q, t)
    ensures q !in entries
  {
    hide IsPath, Under;
    NothingBelow(entries, t);
  }

  // The moved rows hang together under their new parent.
  lemma MovedRowOk(entries: map<string, Row>, after: map<string, Row>, f: string, t: string, p: string)
    requires Tree(entries) && IsPath(f) && IsPath(t) && f != "/" && t != "/"
    requires p in entries && AtOrUnder(p, f)
    requires Moved(entries, f, t).Keys <= after.Keys
    requires forall q :: q in Moved(entries, f, t) ==> after[q] == Moved(entries, f, t)[q]
    requires IsDir(after, ParentOf(t))
    ensures Rewrite(p, f, t) in after && RowOk(after, Rewrite(p, f, t))
  {
    hide IsPath, Under, Rewrite, Moved, ParentOf, BaseName;
    assert RowOk(entries, p);
    var q := Rewrite(p, f, t);
    MovedAt(entries, f, t, p);
    RewriteIsPath(p, f, t);
    if p == f {
      FullRewrite(f, t);
    } else {
      RewriteUnder(p, f, t);
      BelowIsNotRoot(p, f);
      BelowIsNotRoot(q, t);
      ParentUnder(p, f);
      MovedAt(entries, f, t, ParentOf(p));
      MovedKind(entries, f, t, ParentOf(p));
    }
  }

  lemma FullRewrite(f: string, t: string)
    ensures Rewrite(f, f, t) == t
  {
  }

  lemma BelowIsNotRoot(p: string, d: string)
    requires Under(p, d) && IsPath(d) && d != "/"
    ensures p != "/"
  {
  }

  lemma MovedKind(entries: map<string, Row>, f: string, t: string, p: string)
    requires p in entries
    ensures MovedRow(entries[p], p, f, t).kind == entries[p].kind
  {
  }

  lemma TargetParentStays(f: string, t: string)
    requires IsPath(f) && IsPath(t) && f != "/" && t != "/" && !AtOrUnder(t, f)
    ensures !AtOrUnder(ParentOf(t), f)
  {
    hide IsPath, Under, ParentOf, BaseName;
    PathParts(t);
    RootIsUnderNothing(f);
    if ParentOf(t) != "/" && AtOrUnder(ParentOf(t), f) { UnderTransitive(t, ParentOf(t), f); }
  }

  lemma UnmovedRowOk(entries: map<string, Row>, after: map<string, Row>, f: string, p: string)
    requires Tree(entries) && IsPath(f) && f != "/" && p in entries && !AtOrUnder(p, f)
    requires forall q :: q in entries && !AtOrUnder(q, f) ==> q in after && after[q] == entries[q]
    ensures RowOk(after, p)
  {
    hide IsPath, Under, ParentOf, BaseName;
    assert RowOk(entries, p);
    if p != "/" {
      PathParts(p);
      RootIsUnderNothing(f);
      var d := entries[p].parent;
      if AtOrUnder(d, f) { UnderTransitive(p, d, f); }
      assert d in after && after[d] == entries[d];
    }
  }

  function AfterMove(entries: map<string, Row>, f: string, t: string): map<string, Row> {
    Unmoved(entries, f) + Moved(entries, f, t)
  }

  lemma MoveKeepsTree(entries: map<string, Row>, f: string, t: string)
    requires Tree(entries) && IsPath(f) && IsPath(t) && f != "/" && t != "/"
    requires t !in entries && !AtOrUnder(t, f) && IsDir(entries, ParentOf(t))
    ensures Tree(AfterMove(entries, f, t))
  {
    hide IsPath, Under, ParentOf, BaseName, Moved, RowOk;
    var after := AfterMove(entries, f, t);
    NoCollision(entries, f, t);
    TargetParentStays(f, t);
    assert forall q :: q in entries && !AtOrUnder(q, f) ==> q in after && after[q] == entries[q];
    forall q | q in after ensures RowOk(after, q) {
      if q in Moved(entries, f, t) {
        var p := MovedFrom(entries, f, t, q);
        MovedRowOk(entries, after, f, t, p);
      } else {
        UnmovedRowOk(entries, after, f, q);
      }
    }
  }

  function Subtree(entries: map<string, Row>, f: string): map<string, Row> {
    map p | p in entries && AtOrUnder(p, f) :: entries[p]
  }

  lemma MovedOfSubtree(entries: map<string, Row>, f: string, t: string)
    ensures Moved(Subtree(entries, f), f, t) == Moved(entries, f, t)
  {
    hide AtOrUnder, Rewrite, MovedRow;
    forall p | p in entries && AtOrUnder(p, f) ensures Rewrite(Rewrite(p, f, t), t, f) == p { RewriteBack(p, f, t); }
  }

  lemma TotalBefore(entries: map<string, Row>, f: string)
    ensures Total(entries) == Total(Subtree(entries, f)) + Total(Unmoved(entries, f))
  {
    hide AtOrUnder;
    var part := Subtree(entries, f);
    TotalSplit(entries, part.Keys);
    assert (map p | p in part.Keys :: entries[p]) == part;
    assert entries - part.Keys == Unmoved(entries, f);
  }

  lemma TotalAfter(stay: map<string, Row>, moved: map<string, Row>)
    requires moved.Keys !! stay.Keys
    ensures Total(stay + moved) == Total(moved) + Total(stay)
  {
    var after := stay + moved;
    TotalSplit(after, moved.Keys);
    assert (map q | q in moved.Keys :: after[q]) == moved;
    assert after - moved.Keys == stay;
  }

  lemma MoveKeepsTotal(entries: map<string, Row>, f: string, t: string)
    requires Moved(entries, f, t).Keys !! entries.Keys
    ensures Total(AfterMove(entries, f, t)) == Total(entries)
  {
    hide AtOrUnder, Moved, MovedRow;
    TotalBefore(entries, f);
    MovedOfSubtree(entries, f, t);
    TotalMoved(Subtree(entries, f), f, t);
    assert Unmoved(entries, f).Keys <= entries.Keys;
    TotalAfter(Unmoved(entries, f), Moved(entries, f, t));
  }

  // The table just before the UPDATE: the clobbered file gone, the target's parents there.
  lemma BeforeMove(db: Db, f: string, t: string) returns (entries: map<string, Row>)
    requires WellFormed(db) && IsPath(f) && IsPath(t) && t != "/" && f != t && f in db.entries
    requires t in db.entries ==> IsFile(db.entries, t)
    requires MkdirChain(db.entries - {t}, ParentOf(t)).Ok?
    ensures entries == MkdirChain(db.entries - {t}, ParentOf(t)).value
    ensures Tree(entries) && t !in entries
    ensures Total(entries) == Total(db.entries) - (if t in db.entries then db.entries[t].size else 0)
    ensures Grown(db.entries - {t}, entries, ParentOf(t))
    ensures ParentOf(t) == "/" ==> entries == db.entries - {t}
  {
    hide IsPath, Under, ParentOf, BaseName, MkdirChain, RowOk;
    var rest := db.entries - {t};
    if t in db.entries {
      RemovalKeepsTree(db.entries, t, false);
      assert Doomed(db.entries, t, false) == {t};
      TotalRemove(db.entries, t);
    } else {
      assert rest == db.entries;
    }
    ChainMissesLeaf(rest, t);
    entries := MkdirChain(rest, ParentOf(t)).value;
  }

  // Rename in terms of the table it starts from: what it requires and what it leaves.
  lemma RenameShape(cfg: Config, db: Db, ctx: Ctx, f: string, t: string, reaper: Reaper)
    requires f != t && Rename(cfg, db, ctx, f, t, reaper).Ok?
    ensures !Under(t, f) && f in db.entries && (t in db.entries ==> IsFile(db.entries, f) && IsFile(db.entries, t))
    ensures AssertWritable(ctx, f).Ok? && AssertWritable(ctx, t).Ok?
    ensures !LockedSelfOrAbove(db.entries, f) && !LockedBelow(db.entries, f)
    ensures !LockedSelfOrAbove(db.entries, t) && !LockedBelow(db.entries, t)
    ensures MkdirChain(db.entries - {t}, ParentOf(t)).Ok?
    ensures var entries := MkdirChain(db.entries - {t}, ParentOf(t)).value;
            var after := Rename(cfg, db, ctx, f, t, reaper).value;
            && IsDir(entries, ParentOf(t))
            && after.entries == AfterMove(entries, f, t)
            && after.usage == db.usage - (if t in db.entries then db.entries[t].size else 0)
  {
    hide MkdirChain, Moved, Unmoved, SnapshotRemoved, ParentOf, AssertWritable, LockedSelfOrAbove, LockedBelow,
         AtOrUnder, Under;
    if t in db.entries {
      RemovedFrame(cfg, db, {t}, reaper);
    } else {
      assert db.entries - {t} == db.entries;
    }
  }

  lemma RemovedFrame(cfg: Config, db: Db, files: set<string>, reaper: Reaper)
    requires forall p :: p in files ==> p in db.entries
    ensures SnapshotRemoved(cfg, db, files, reaper).0.usage == db.usage
    ensures SnapshotRemoved(cfg, db, files, reaper).0.entries == db.entries
  {
    hide Survivors, ReapedMax, NextNo;
  }

  lemma RenameKeeps(cfg: Config, db: Db, ctx: Ctx, f: string, t: string, reaper: Reaper)
    requires WellFormed(db) && IsPath(f) && IsPath(t) && Rename(cfg, db, ctx, f, t, reaper).Ok?
    ensures WellFormed(Rename(cfg, db, ctx, f, t, reaper).value)
  {
    hide IsPath, Tree, MkdirChain, AfterMove, ParentOf, Under, AssertWritable, LockedSelfOrAbove, LockedBelow;
    if f != t {
      RenameShape(cfg, db, ctx, f, t, reaper);
      WritableIsNotRoot(ctx, f);
      WritableIsNotRoot(ctx, t);
      var entries := BeforeMove(db, f, t);
      NoCollision(entries, f, t);
      MoveKeepsTree(entries, f, t);
      MoveKeepsTotal(entries, f, t);
    }
  }

  // The whole subtree, and only it, moves: each row keeps its bytes, kind and lock under its new
  // path, nothing is left behind, and every other row but a clobbered file is as it was.
  lemma RenameMovesSubtree(cfg: Config, db: Db, ctx: Ctx, f: string, t: string, reaper: Reaper, p: string)
    requires WellFormed(db) && IsPath(f) && IsPath(t) && f != t && Rename(cfg, db, ctx, f, t, reaper).Ok?
    requires p in db.entries && p != t
    ensures var after := Rename(cfg, db, ctx, f, t, reaper).value.entries;
            if AtOrUnder(p, f) then
              && p !in after
              && Rewrite(p, f, t) in after && after[Rewrite(p, f, t)] == MovedRow(db.entries[p], p, f, t)
            else p in after && after[p] == db.entries[p]
  {
    hide IsPath, Tree, MkdirChain, ParentOf, Under, AssertWritable, LockedSelfOrAbove, LockedBelow, Moved, MovedRow,
         Rewrite;
    RenameShape(cfg, db, ctx, f, t, reaper);
    WritableIsNotRoot(ctx, f);
    WritableIsNotRoot(ctx, t);
    var entries := BeforeMove(db, f, t);
    NoCollision(entries, f, t);
    assert p in db.entries - {t};
    if AtOrUnder(p, f) { MovedAt(entries, f, t, p); }
  }
}
