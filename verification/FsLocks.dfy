// Runs of store calls by any actors: what every call keeps, and what a lock freezes.
module FsLocks {
  import opened Options
  import opened Paths
  import opened FsDb
  import opened FsTree

  datatype Op =
    | OpWrite(path: string, bytes: Bytes, mime: Option<string>, reaper: Reaper)
    | OpAppend(path: string, bytes: Bytes, reaper: Reaper)
    | OpMkdir(path: string)
    | OpRm(path: string, recursive: bool, reaper: Reaper)
    | OpRename(path: string, to: string, reaper: Reaper)
    | OpRestore(path: string, named: Option<int>, reaper: Reaper)
    | OpLock(path: string)
    | OpUnlock(path: string)

  datatype Call = Call(ctx: Ctx, op: Op)

  // The transaction a call runs once its paths are normalized.
  ghost function Attempt(cfg: Config, db: Db, c: Call, p: string): Result<Db> {
    match c.op
    case OpWrite(_, bytes, mime, reaper) => Write(cfg, db, c.ctx, p, bytes, mime, reaper)
    case OpAppend(_, bytes, reaper) => Append(cfg, db, c.ctx, p, bytes, reaper)
    case OpMkdir(_) => Mkdir(db, c.ctx, p)
    case OpRm(_, recursive, reaper) =>
      (match Rm(cfg, db, c.ctx, p, recursive, reaper) case Ok(d) => Ok(d.db) case Err(e) => Err(e))
    case OpRename(_, to, reaper) =>
      (match NormalizeFsPath(to) case None => Err(EINVAL) case Some(t) => Rename(cfg, db, c.ctx, p, t, reaper))
    case OpRestore(_, named, reaper) =>
      (match Restore(cfg, db, c.ctx, p, named, reaper) case Ok(d) => Ok(d.db) case Err(e) => Err(e))
    case OpLock(_) => Lock(db, c.ctx, p)
    case OpUnlock(_) => Unlock(db, c.ctx, p)
  }

  // A refused call rolls back: nothing changes.
  ghost function Apply(cfg: Config, db: Db, c: Call): Db {
    match NormalizeFsPath(c.op.path)
    case None => db
    case Some(p) => match Attempt(cfg, db, c, p) case Ok(d) => d case Err(_) => db
  }

  ghost function Run(cfg: Config, db: Db, calls: seq<Call>): Db
    decreases |calls|
  {
    if calls == [] then db else Run(cfg, Apply(cfg, db, calls[0]), calls[1..])
  }

  lemma RelockKeeps(db: Db, p: string, holder: Option<string>)
    requires WellFormed(db) && p in db.entries
    ensures WellFormed(db.(entries := db.entries[p := db.entries[p].(lockedBy := holder)]))
  {
    hide IsPath, ParentOf, BaseName;
    var r := db.entries[p].(lockedBy := holder);
    TreeRow(db.entries, p);
    if p == "/" {
      var after := db.entries[p := r];
      forall q | q in after ensures RowOk(after, q) { if q != p { assert RowOk(db.entries, q); } }
    } else {
      PutKeepsTree(db.entries, p, r);
    }
    TotalPut(db.entries, p, r);
  }

  lemma ApplyKeeps(cfg: Config, db: Db, c: Call)
    requires WellFormed(db)
    ensures WellFormed(Apply(cfg, db, c))
  {
    hide WellFormed, Write, Append, Mkdir, Rm, Rename, Restore, NormalizeFsPath, IsPath, AssertWritable;
    if NormalizeFsPath(c.op.path).Some? {
      var p := NormalizeFsPath(c.op.path).value;
      if Attempt(cfg, db, c, p).Ok? {
        match c.op
        case OpWrite(_, bytes, mime, reaper) => WriteKeeps(cfg, db, c.ctx, p, bytes, mime, reaper);
        case OpAppend(_, bytes, reaper) => AppendKeeps(cfg, db, c.ctx, p, bytes, reaper);
        case OpMkdir(_) => MkdirKeeps(db, c.ctx, p);
        case OpRm(_, recursive, reaper) => RmKeeps(cfg, db, c.ctx, p, recursive, reaper);
        case OpRename(_, to, reaper) => RenameKeeps(cfg, db, c.ctx, p, NormalizeFsPath(to).value, reaper);
        case OpRestore(_, named, reaper) => RestoreKeeps(cfg, db, c.ctx, p, named, reaper);
        case OpLock(_) => RelockKeeps(db, p, Some(c.ctx.actor));
        case OpUnlock(_) => if Locked(db.entries, p) { RelockKeeps(db, p, None); }
      }
    }
  }

  // The invariant of every run: a tree of its own paths, and a usage counter that is their sum.
  lemma {:induction false} RunKeepsWellFormed(cfg: Config, db: Db, calls: seq<Call>)
    requires WellFormed(db)
    ensures WellFormed(Run(cfg, db, calls))
    decreases |calls|
  {
    hide WellFormed, Apply;
    if calls != [] {
      ApplyKeeps(cfg, db, calls[0]);
      RunKeepsWellFormed(cfg, Apply(cfg, db, calls[0]), calls[1..]);
    }
  }

  // ---- the lock frame ------------------------------------------------------------------------

  // Everything at or below L is the same row, give or take its own lock columns.
  ghost predicate Frozen(before: map<string, Row>, after: map<string, Row>, l: string) {
    forall q :: AtOrUnder(q, l) ==>
      && (q in before <==> q in after)
      && (q in before ==> after[q] == before[q].(lockedBy := after[q].lockedBy))
  }

  // The one way a lock ends.
  ghost predicate Releases(db: Db, c: Call, l: string) {
    && c.op.OpUnlock? && NormalizeFsPath(c.op.path) == Some(l) && Locked(db.entries, l)
    && (c.ctx.isOwner || db.entries[l].lockedBy == Some(c.ctx.actor))
  }

  // What a frame needs of an operation: outside its own target it only adds parents.
  ghost predicate OnlyAround(before: map<string, Row>, after: map<string, Row>, p: string) {
    && (forall q :: q in before && q != p ==> q in after && after[q] == before[q])
    && forall q :: q in after && q !in before ==> AtOrUnder(p, q)
  }

  lemma AroundFreezes(before: map<string, Row>, after: map<string, Row>, p: string, l: string)
    requires OnlyAround(before, after, p) && !AtOrUnder(p, l)
    ensures Frozen(before, after, l)
    ensures l in before ==> l in after && after[l] == before[l]
  {
    hide Under;
    forall q | AtOrUnder(q, l) && q in after && q !in before ensures false { UnderTransitive(p, q, l); }
  }

  lemma PlaceAround(cfg: Config, db: Db, p: string, content: Bytes, mime: string, keepMime: bool)
    requires WellFormed(db) && IsPath(p) && p != "/" && Place(cfg, db, p, content, mime, keepMime).Ok?
    ensures OnlyAround(db.entries, Place(cfg, db, p, content, mime, keepMime).value.entries, p)
  {
    hide IsPath, ParentOf, MkdirChain, Tree, AtOrUnder, BaseName, PutFile;
    ChainMissesLeaf(db.entries, p);
    var more := MkdirChain(db.entries, ParentOf(p)).value;
    ChainIsAround(db.entries, more, p);
    PutFileShape(more, p, content, mime, keepMime);
    PutAround(db.entries, more, p, PutFile(more, p, content, mime, keepMime).value[p]);
  }

  lemma PutFileShape(entries: map<string, Row>, p: string, content: Bytes, mime: string, keepMime: bool)
    requires PutFile(entries, p, content, mime, keepMime).Ok?
    ensures var after := PutFile(entries, p, content, mime, keepMime).value;
            && p in after && after == entries[p := after[p]]
            && after[p].content == content && after[p].size == |content|
            && after[p].lockedBy == (if p in entries then entries[p].lockedBy else None)
            && after[p].kind == (if p in entries then entries[p].kind else File)
  {
  }

  lemma PutAround(before: map<string, Row>, more: map<string, Row>, p: string, r: Row)
    requires OnlyAround(before, more, p)
    ensures OnlyAround(before, more[p := r], p)
  {
    hide Under;
  }

  lemma ChainIsAround(entries: map<string, Row>, more: map<string, Row>, p: string)
    requires IsPath(p) && p != "/" && Grown(entries, more, ParentOf(p))
    requires ParentOf(p) == "/" ==> more == entries
    ensures OnlyAround(entries, more, p)
  {
    hide IsPath, ParentOf, Under, BaseName;
    PathParts(p);
    if ParentOf(p) != "/" {
      forall q | q in more && q !in entries ensures AtOrUnder(p, q) { UnderTransitive(p, ParentOf(p), q); }
    }
  }

  lemma ExtendAround(cfg: Config, db: Db, p: string, bytes: Bytes)
    requires WellFormed(db) && IsPath(p) && p != "/" && Extend(cfg, db, p, bytes).Ok?
    ensures OnlyAround(db.entries, Extend(cfg, db, p, bytes).value.entries, p)
  {
    hide IsPath, ParentOf, MkdirChain, Tree, Under, BaseName;
    if !IsFile(db.entries, p) {
      ChainMissesLeaf(db.entries, p);
      ChainIsAround(db.entries, MkdirChain(db.entries, ParentOf(p)).value, p);
    }
  }

  ghost predicate StillFrozen(before: map<string, Row>, after: map<string, Row>, l: string) {
    Frozen(before, after, l) && Locked(after, l)
  }

  lemma OutsideTheLock(entries: map<string, Row>, p: string, l: string)
    requires Locked(entries, l) && !LockedSelfOrAbove(entries, p)
    ensures !AtOrUnder(p, l)
  {
    hide Under;
  }

  // Two paths above one path are on one line.
  lemma Comparable(q: string, p: string, l: string)
    requires AtOrUnder(q, p) && AtOrUnder(q, l)
    ensures AtOrUnder(p, l) || AtOrUnder(l, p)
  {
    UnderAt(q, p);
    UnderAt(q, l);
    UnderAt(p, l);
    UnderAt(l, p);
    if |p| < |l| {
      assert l[..|p|] == q[..|l|][..|p|];
      assert l[|p|] == q[..|l|][|p|];
    } else if |l| < |p| {
      assert p[..|l|] == q[..|p|][..|l|];
      assert p[|l|] == q[..|p|][|l|];
    } else {
      assert q[..|p|] == q[..|l|];
    }
  }

  // A call that may touch the whole subtree of p reaches nothing a lock covers.
  lemma SubtreeOutsideTheLock(entries: map<string, Row>, p: string, l: string, q: string)
    requires Locked(entries, l) && !LockedSelfOrAbove(entries, p) && !LockedBelow(entries, p)
    requires AtOrUnder(q, l)
    ensures !AtOrUnder(q, p)
  {
    hide Under;
    OutsideTheLock(entries, p, l);
    if AtOrUnder(q, p) { Comparable(q, p, l); }
  }

  lemma AroundStaysFrozen(before: map<string, Row>, after: map<string, Row>, p: string, l: string)
    requires OnlyAround(before, after, p) && Locked(before, l) && !LockedSelfOrAbove(before, p)
    ensures StillFrozen(before, after, l)
  {
    hide OnlyAround, Frozen, AtOrUnder, LockedSelfOrAbove;
    OutsideTheLock(before, p, l);
    AroundFreezes(before, after, p, l);
  }

  lemma WriteFreezes(cfg: Config, db: Db, ctx: Ctx, p: string, bytes: Bytes, mime: Option<string>, reaper: Reaper,
                     l: string)
    requires WellFormed(db) && IsPath(p) && Locked(db.entries, l) && Write(cfg, db, ctx, p, bytes, mime, reaper).Ok?
    ensures StillFrozen(db.entries, Write(cfg, db, ctx, p, bytes, mime, reaper).value.entries, l)
  {
    hide IsPath, Place, SnapshotOverwrite, OnlyAround, StillFrozen, LockedSelfOrAbove, LockedBelow, Locked;
    SnapshotFrame(cfg, db, p, false, Some(bytes), reaper);
    var declared := Essence(cfg, mime);
    var db1 := SnapshotOverwrite(cfg, db, p, false, Some(bytes), reaper).0;
    PlaceAround(cfg, db1, p, bytes, MimeOr(cfg, declared, p), declared.None?);
    AroundStaysFrozen(db.entries, Write(cfg, db, ctx, p, bytes, mime, reaper).value.entries, p, l);
  }

  lemma AppendFreezes(cfg: Config, db: Db, ctx: Ctx, p: string, bytes: Bytes, reaper: Reaper, l: string)
    requires WellFormed(db) && IsPath(p) && Locked(db.entries, l) && Append(cfg, db, ctx, p, bytes, reaper).Ok?
    ensures StillFrozen(db.entries, Append(cfg, db, ctx, p, bytes, reaper).value.entries, l)
  {
    hide IsPath, Extend, SnapshotOverwrite, OnlyAround, StillFrozen, LockedSelfOrAbove, LockedBelow, Locked;
    WritableIsNotRoot(ctx, p);
    SnapshotFrame(cfg, db, p, false, None, reaper);
    ExtendAround(cfg, if |bytes| > 0 then SnapshotOverwrite(cfg, db, p, false, None, reaper).0 else db, p, bytes);
    AroundStaysFrozen(db.entries, Append(cfg, db, ctx, p, bytes, reaper).value.entries, p, l);
  }

  lemma RestoreFreezes(cfg: Config, db: Db, ctx: Ctx, p: string, named: Option<int>, reaper: Reaper, l: string)
    requires WellFormed(db) && IsPath(p) && Locked(db.entries, l) && Restore(cfg, db, ctx, p, named, reaper).Ok?
    ensures StillFrozen(db.entries, Restore(cfg, db, ctx, p, named, reaper).value.db.entries, l)
  {
    hide IsPath, Place, SnapshotOverwrite, OnlyAround, StillFrozen, LockedSelfOrAbove, LockedBelow, Locked, Selected,
         WellFormed, Essence, MimeOr, History, AssertWritable;
    WritableIsNotRoot(ctx, p);
    var live := if p in db.entries then Some(db.entries[p].content) else None;
    var v := Selected(History(db, p), live, named).value;
    SnapshotFrame(cfg, db, p, true, Some(v.content), reaper);
    var db1 := if live.Some? then SnapshotOverwrite(cfg, db, p, true, Some(v.content), reaper).0 else db;
    PlaceAround(cfg, db1, p, v.content, MimeOr(cfg, Essence(cfg, v.mime), p), false);
    AroundStaysFrozen(db.entries, Restore(cfg, db, ctx, p, named, reaper).value.db.entries, p, l);
  }

  lemma SameFreezes(entries: map<string, Row>, l: string)
    requires Locked(entries, l)
    ensures StillFrozen(entries, entries, l)
  {
    hide AtOrUnder;
  }

  lemma MkdirFreezes(db: Db, ctx: Ctx, p: string, l: string)
    requires WellFormed(db) && IsPath(p) && Locked(db.entries, l) && Mkdir(db, ctx, p).Ok?
    ensures StillFrozen(db.entries, Mkdir(db, ctx, p).value.entries, l)
  {
    hide IsPath, MkdirChain, StillFrozen, LockedSelfOrAbove, LockedBelow, Locked, Tree, AtOrUnder, AssertWritable;
    var after := Mkdir(db, ctx, p).value.entries;
    if after == db.entries {
      SameFreezes(db.entries, l);
    } else {
      MkdirChainKeeps(db.entries, p);
      AroundStaysFrozen(db.entries, after, p, l);
    }
  }

  lemma RmFreezes(cfg: Config, db: Db, ctx: Ctx, p: string, recursive: bool, reaper: Reaper, l: string)
    requires Locked(db.entries, l) && Rm(cfg, db, ctx, p, recursive, reaper).Ok?
    ensures StillFrozen(db.entries, Rm(cfg, db, ctx, p, recursive, reaper).value.db.entries, l)
  {
    hide Under, LockedSelfOrAbove, LockedBelow, SnapshotRemoved, HasChild, AssertWritable, Total;
    var doomed := Doomed(db.entries, p, recursive);
    OutsideTheLock(db.entries, p, l);
    forall q | AtOrUnder(q, l) ensures q !in doomed {
      if recursive { SubtreeOutsideTheLock(db.entries, p, l, q); }
    }
    assert AtOrUnder(l, l);
  }

  lemma RenameFreezes(cfg: Config, db: Db, ctx: Ctx, f: string, t: string, reaper: Reaper, l: string)
    requires WellFormed(db) && IsPath(f) && IsPath(t) && Locked(db.entries, l) && Rename(cfg, db, ctx, f, t, reaper).Ok?
    ensures StillFrozen(db.entries, Rename(cfg, db, ctx, f, t, reaper).value.entries, l)
  {
    hide IsPath, Under, LockedSelfOrAbove, LockedBelow, AssertWritable, MkdirChain, Tree, Rename, AfterMove,
         StillFrozen, Locked;
    if f == t {
      SameRename(cfg, db, ctx, f, reaper);
      SameFreezes(db.entries, l);
    } else {
      RenameShape(cfg, db, ctx, f, t, reaper);
      WritableIsNotRoot(ctx, t);
      var entries := BeforeMove(db, f, t);
      WritableIsNotRoot(ctx, f);
      ChainIsAround(db.entries - {t}, entries, t);
      forall q | AtOrUnder(q, l) ensures !AtOrUnder(q, f) && !AtOrUnder(q, t) {
        SubtreeOutsideTheLock(db.entries, f, l, q);
        SubtreeOutsideTheLock(db.entries, t, l, q);
      }
      OutsideTheLock(db.entries, t, l);
      MoveFreezes(db.entries, entries, f, t, l);
    }
  }

  lemma SameRename(cfg: Config, db: Db, ctx: Ctx, f: string, reaper: Reaper)
    ensures Rename(cfg, db, ctx, f, f, reaper) == Ok(db)
  {
  }

  lemma MovedLandsBelow(entries: map<string, Row>, f: string, t: string, q: string)
    requires Tree(entries) && IsPath(f) && IsPath(t) && f != "/" && t != "/" && q in Moved(entries, f, t)
    ensures AtOrUnder(q, t)
  {
    hide IsPath, Under, Moved, Rewrite, RowOk;
    var p := MovedFrom(entries, f, t, q);
    PathOf(entries, p);
    RewriteIsPath(p, f, t);
  }

  lemma MoveFreezes(before: map<string, Row>, entries: map<string, Row>, f: string, t: string, l: string)
    requires Tree(entries) && IsPath(f) && IsPath(t) && f != "/" && t != "/"
    requires Locked(before, l) && OnlyAround(before - {t}, entries, t) && !AtOrUnder(t, l)
    requires forall q :: AtOrUnder(q, l) ==> !AtOrUnder(q, f) && !AtOrUnder(q, t)
    ensures StillFrozen(before, AfterMove(entries, f, t), l)
  {
    hide IsPath, Under, Moved, Tree, OnlyAround;
    var after := AfterMove(entries, f, t);
    AroundFreezes(before - {t}, entries, t, l);
    forall q | AtOrUnder(q, l)
      ensures (q in before <==> q in after) && (q in before ==> after[q] == before[q].(lockedBy := after[q].lockedBy))
    {
      assert AtOrUnder(t, t);
      if q in Moved(entries, f, t) { MovedLandsBelow(entries, f, t, q); }
    }
    assert AtOrUnder(l, l) && l != t;
    if l in Moved(entries, f, t) { MovedLandsBelow(entries, f, t, l); }
    assert l in after && after[l] == entries[l] == before[l];
  }

  // ---- runs under a lock ------------------------------------------------------------------------

  lemma RelockFreezes(entries: map<string, Row>, p: string, holder: Option<string>, l: string)
    requires p in entries && Locked(entries, l) && (p == l ==> holder.Some?)
    ensures StillFrozen(entries, entries[p := entries[p].(lockedBy := holder)], l)
  {
    hide AtOrUnder;
  }

  lemma ApplyFreezes(cfg: Config, db: Db, c: Call, l: string)
    requires WellFormed(db) && Locked(db.entries, l) && !Releases(db, c, l)
    ensures StillFrozen(db.entries, Apply(cfg, db, c).entries, l)
  {
    hide WellFormed, Write, Append, Mkdir, Rm, Rename, Restore, NormalizeFsPath, IsPath, StillFrozen, AssertWritable;
    SameFreezes(db.entries, l);
    if NormalizeFsPath(c.op.path).Some? {
      var p := NormalizeFsPath(c.op.path).value;
      if Attempt(cfg, db, c, p).Ok? {
        match c.op
        case OpWrite(_, bytes, mime, reaper) => WriteFreezes(cfg, db, c.ctx, p, bytes, mime, reaper, l);
        case OpAppend(_, bytes, reaper) => AppendFreezes(cfg, db, c.ctx, p, bytes, reaper, l);
        case OpMkdir(_) => MkdirFreezes(db, c.ctx, p, l);
        case OpRm(_, recursive, reaper) => RmFreezes(cfg, db, c.ctx, p, recursive, reaper, l);
        case OpRename(_, to, reaper) => RenameFreezes(cfg, db, c.ctx, p, NormalizeFsPath(to).value, reaper, l);
        case OpRestore(_, named, reaper) => RestoreFreezes(cfg, db, c.ctx, p, named, reaper, l);
        case OpLock(_) => RelockFreezes(db.entries, p, Some(c.ctx.actor), l);
        case OpUnlock(_) => if Locked(db.entries, p) { RelockFreezes(db.entries, p, None, l); }
      }
    }
  }

  // A lock ends only through its holder or an owner, and that call ends it.
  lemma ReleaseEndsIff(cfg: Config, db: Db, c: Call, l: string)
    requires WellFormed(db) && Locked(db.entries, l)
    ensures !Locked(Apply(cfg, db, c).entries, l) <==> Releases(db, c, l) && AssertWritable(c.ctx, l).Ok?
  {
    hide WellFormed, Write, Append, Mkdir, Rm, Rename, Restore, NormalizeFsPath, AssertWritable, Frozen;
    if !Releases(db, c, l) { ApplyFreezes(cfg, db, c, l); }
  }

  // No call of the run releases l, judged in the state it meets.
  ghost predicate NeverReleased(cfg: Config, db: Db, calls: seq<Call>, l: string)
    decreases |calls|
  {
    calls == [] || (!Releases(db, calls[0], l) && NeverReleased(cfg, Apply(cfg, db, calls[0]), calls[1..], l))
  }

  lemma FrozenTransitive(a: map<string, Row>, b: map<string, Row>, c: map<string, Row>, l: string)
    requires Frozen(a, b, l) && Frozen(b, c, l)
    ensures Frozen(a, c, l)
  {
    hide AtOrUnder;
  }

  // While a path is locked, whoever calls whatever, nothing at or below it changes, appears,
  // moves or goes away.
  lemma {:induction false} LockedSubtreeIsFrozen(cfg: Config, db: Db, calls: seq<Call>, l: string)
    requires WellFormed(db) && Locked(db.entries, l) && NeverReleased(cfg, db, calls, l)
    ensures StillFrozen(db.entries, Run(cfg, db, calls).entries, l)
    decreases |calls|
  {
    hide WellFormed, Apply, Frozen, Releases;
    if calls == [] {
      SameFreezes(db.entries, l);
    } else {
      var next := Apply(cfg, db, calls[0]);
      ApplyKeeps(cfg, db, calls[0]);
      ApplyFreezes(cfg, db, calls[0], l);
      LockedSubtreeIsFrozen(cfg, next, calls[1..], l);
      FrozenTransitive(db.entries, next.entries, Run(cfg, db, calls).entries, l);
    }
  }
}
