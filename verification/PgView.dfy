// packages/mcp-tools/src/pg-fs.ts: the file system a script believes it has. A view is what an
// unbuffered, uncached file system would show; each verb on views is its reference meaning.
module PgView {
  import opened Options
  import opened Paths
  import opened FsDb
  import opened FsTree
  import opened FsLocks
  import opened FsUndo

  datatype Node = DirNode | FileNode(content: Bytes)
  type View = map<string, Node>

  function NodeOf(r: Row): Node { if r.kind.Dir? then DirNode else FileNode(r.content) }
  function ViewOf(entries: map<string, Row>): View { map p | p in entries :: NodeOf(entries[p]) }

  // ---- the verbs, unbuffered ----------------------------------------------------------------

  predicate IsDirNode(v: View, p: string) { p in v && v[p].DirNode? }

  function Content(v: View, p: string): Bytes {
    if p in v && v[p].FileNode? then v[p].content else []
  }

  function AddDirs(v: View, dir: string): View
    decreases |dir|
  {
    if FixedRoot(dir) || |ParentOf(dir)| >= |dir| then v
    else
      var above := AddDirs(v, ParentOf(dir));
      if dir in above then above else above[dir := DirNode]
  }

  function Appended(v: View, p: string, bytes: Bytes): View { v[p := FileNode(Content(v, p) + bytes)] }
  function Written(v: View, p: string, bytes: Bytes): View { AddDirs(v, ParentOf(p))[p := FileNode(bytes)] }
  function Removed(v: View, p: string, recursive: bool): View {
    map q | q in v && !(q == p || (recursive && Under(q, p))) :: v[q]
  }

  // Every row of the subtree at f, seen under t instead.
  function Shifted(v: View, f: string, t: string): View {
    var image := set p | p in v && AtOrUnder(p, f) :: Rewrite(p, f, t);
    (map q | q in v && !AtOrUnder(q, f) :: v[q]) + (map q | q in image && Rewrite(q, t, f) in v :: v[Rewrite(q, t, f)])
  }

  function Renamed(v: View, f: string, t: string): View {
    if f == t then v else Shifted(AddDirs(v - {t}, ParentOf(t)), f, t)
  }

  // ---- the append buffer ----------------------------------------------------------------------

  datatype Buf = Buf(chunks: seq<Bytes>, bytes: nat)
  type Pending = map<string, Buf>

  function Flat(chunks: seq<Bytes>): Bytes {
    if chunks == [] then [] else Flat(chunks[..|chunks| - 1]) + chunks[|chunks| - 1]
  }

  lemma FlatPush(chunks: seq<Bytes>, chunk: Bytes)
    ensures Flat(chunks + [chunk]) == Flat(chunks) + chunk
  {
    assert (chunks + [chunk])[..|chunks|] == chunks;
  }

  function Buffered(pending: Pending, p: string): Bytes { if p in pending then Flat(pending[p].chunks) else [] }

  // What the script sees: the store's tree, every file extended by what is still buffered for it.
  function Overlay(v: View, pending: Pending): View {
    map p | p in v.Keys + pending.Keys ::
      if IsDirNode(v, p) then DirNode else FileNode(Content(v, p) + Buffered(pending, p))
  }

  // A buffered path whose flush adds one row at most: its parent is there, and it is no directory.
  ghost predicate Landable(entries: map<string, Row>, p: string) {
    IsPath(p) && p != "/" && IsDir(entries, ParentOf(p)) && !IsDir(entries, p)
  }

  lemma OverlayNothing(v: View)
    ensures Overlay(v, map[]) == v
  {
    forall p | p in v
      ensures Overlay(v, map[])[p] == v[p]
    {
      if v[p].FileNode? { assert v[p].content + [] == v[p].content; }
    }
  }

  // Buffering a chunk is an append.
  lemma BufferIsAppend(v: View, pending: Pending, p: string, buf: Buf, chunk: Bytes)
    requires !IsDirNode(v, p)
    requires Flat(buf.chunks) == Buffered(pending, p) + chunk
    ensures Overlay(v, pending[p := buf]) == Appended(Overlay(v, pending), p, chunk)
  {
    hide Flat;
    OverlayAt(v, pending, p);
    assert Content(v, p) + Buffered(pending, p) + chunk == Content(v, p) + (Buffered(pending, p) + chunk);
    SameButAt(v, pending, v, pending[p := buf], p, FileNode(Content(v, p) + Flat(buf.chunks)));
  }

  // Two overlays that differ in one path.
  lemma SameButAt(v: View, pending: Pending, u: View, after: Pending, p: string, node: Node)
    requires u.Keys + after.Keys == v.Keys + pending.Keys + {p}
    requires forall q :: q != p ==> (q in u <==> q in v) && (q in after <==> q in pending)
    requires forall q :: q != p && q in v ==> u[q] == v[q]
    requires forall q :: q != p && q in pending ==> after[q] == pending[q]
    requires Overlay(u, after)[p] == node
    ensures Overlay(u, after) == Overlay(v, pending)[p := node]
  {
    hide Flat;
    var a, b := Overlay(u, after), Overlay(v, pending)[p := node];
    forall q | q in a ensures q in b && a[q] == b[q] {
      if q != p { assert Content(u, q) == Content(v, q) && Buffered(after, q) == Buffered(pending, q); }
    }
  }

  lemma OverlayAt(v: View, pending: Pending, p: string)
    requires !IsDirNode(v, p)
    ensures Content(Overlay(v, pending), p) == Content(v, p) + Buffered(pending, p)
  {
    hide Flat;
  }

  // Landing a buffer changes nothing the script can see.
  lemma LandingIsInvisible(v: View, pending: Pending, p: string)
    requires p in pending && !IsDirNode(v, p)
    ensures Overlay(Appended(v, p, Buffered(pending, p)), pending - {p}) == Overlay(v, pending)
  {
    hide Flat;
    var node := FileNode(Content(v, p) + Buffered(pending, p));
    assert node.content + [] == node.content;
    SameButAt(v, pending, Appended(v, p, Buffered(pending, p)), pending - {p}, p, node);
  }

  // ---- the store's transactions, seen as verbs ------------------------------------------------------

  lemma {:induction false} ChainOfDir(entries: map<string, Row>, d: string)
    requires Tree(entries) && IsDir(entries, d)
    ensures MkdirChain(entries, d) == Ok(entries)
    decreases |d|
  {
    hide IsPath, ParentOf, BaseName, FixedRoot;
    TreeRow(entries, d);
    if !FixedRoot(d) {
      NotRoot(d);
      PathParts(d);
      ChainOfDir(entries, ParentOf(d));
    }
  }

  // An append whose parent is there touches one row.
  ghost predicate AppendedRow(before: map<string, Row>, after: map<string, Row>, p: string, bytes: Bytes) {
    && p in after && after == before[p := after[p]] && after[p].kind.File?
    && after[p].content == (if p in before then before[p].content else []) + bytes
  }

  lemma ExtendIsAppend(cfg: Config, db: Db, p: string, bytes: Bytes)
    requires WellFormed(db) && Landable(db.entries, p) && Extend(cfg, db, p, bytes).Ok?
    ensures AppendedRow(db.entries, Extend(cfg, db, p, bytes).value.entries, p, bytes)
  {
    hide IsPath, ParentOf, MkdirChain, BaseName, Tree, FixedRoot;
    ChainOfDir(db.entries, ParentOf(p));
    assert [] + bytes == bytes;
  }

  lemma AppendIsAppend(cfg: Config, db: Db, ctx: Ctx, p: string, bytes: Bytes, reaper: Reaper)
    requires WellFormed(db) && Landable(db.entries, p) && Append(cfg, db, ctx, p, bytes, reaper).Ok?
    ensures AppendedRow(db.entries, Append(cfg, db, ctx, p, bytes, reaper).value.entries, p, bytes)
  {
    hide IsPath, Extend, SnapshotOverwrite, Landable, WellFormed, AssertWritable, AssertNotLocked;
    SnapshotFrame(cfg, db, p, false, None, reaper);
    ExtendIsAppend(cfg, if |bytes| > 0 then SnapshotOverwrite(cfg, db, p, false, None, reaper).0 else db, p, bytes);
  }

  lemma AppendedRowView(before: map<string, Row>, after: map<string, Row>, p: string, bytes: Bytes)
    requires AppendedRow(before, after, p, bytes) && !IsDir(before, p)
    ensures ViewOf(after) == Appended(ViewOf(before), p, bytes)
  {
  }

  lemma {:induction false} ChainView(entries: map<string, Row>, dir: string)
    requires MkdirChain(entries, dir).Ok?
    ensures ViewOf(MkdirChain(entries, dir).value) == AddDirs(ViewOf(entries), dir)
    decreases |dir|
  {
    hide ParentOf, BaseName, FixedRoot;
    if !FixedRoot(dir) && |ParentOf(dir)| < |dir| { ChainView(entries, ParentOf(dir)); }
  }

  lemma PlaceView(cfg: Config, db: Db, p: string, content: Bytes, mime: string, keepMime: bool)
    requires WellFormed(db) && IsPath(p) && p != "/" && !IsDir(db.entries, p)
    requires Place(cfg, db, p, content, mime, keepMime).Ok?
    ensures var after := Place(cfg, db, p, content, mime, keepMime).value.entries;
            IsFile(after, p) && ViewOf(after) == Written(ViewOf(db.entries), p, content)
  {
    hide IsPath, ParentOf, BaseName, MkdirChain, Tree, AddDirs, PutFile;
    ChainMissesLeaf(db.entries, p);
    var more := MkdirChain(db.entries, ParentOf(p)).value;
    ChainView(db.entries, ParentOf(p));
    PutFileShape(more, p, content, mime, keepMime);
  }

  lemma WriteView(cfg: Config, db: Db, ctx: Ctx, p: string, bytes: Bytes, mime: Option<string>, reaper: Reaper)
    requires WellFormed(db) && IsPath(p) && Write(cfg, db, ctx, p, bytes, mime, reaper).Ok?
    ensures var after := Write(cfg, db, ctx, p, bytes, mime, reaper).value.entries;
            IsFile(after, p) && after[p].content == bytes && ViewOf(after) == Written(ViewOf(db.entries), p, bytes)
  {
    hide IsPath, Place, SnapshotOverwrite, WellFormed, AssertWritable, AssertNotLocked, AddDirs, ParentOf;
    SnapshotFrame(cfg, db, p, false, Some(bytes), reaper);
    var declared := Essence(cfg, mime);
    PlaceView(cfg, SnapshotOverwrite(cfg, db, p, false, Some(bytes), reaper).0, p, bytes, MimeOr(cfg, declared, p),
              declared.None?);
    var after := Write(cfg, db, ctx, p, bytes, mime, reaper).value.entries;
    assert ViewOf(after)[p] == FileNode(bytes);
  }

  lemma MkdirView(db: Db, ctx: Ctx, p: string)
    requires WellFormed(db) && Mkdir(db, ctx, p).Ok?
    ensures ViewOf(Mkdir(db, ctx, p).value.entries) == AddDirs(ViewOf(db.entries), p)
    ensures FixedRoot(p) || IsDir(Mkdir(db, ctx, p).value.entries, p)
  {
    hide MkdirChain, AddDirs, AssertWritable, AssertNotLocked, Tree, IsHomeRoot;
    if IsDir(db.entries, p) { ChainOfDir(db.entries, p); }
    if MkdirChain(db.entries, p).Ok? { ChainView(db.entries, p); }
    if p == "/" || p == "/shared" || p == "/home" { RootAddsNothing(ViewOf(db.entries), p); }
  }

  lemma RootAddsNothing(v: View, p: string)
    requires FixedRoot(p)
    ensures AddDirs(v, p) == v
  {
  }

  lemma RmView(cfg: Config, db: Db, ctx: Ctx, p: string, recursive: bool, reaper: Reaper)
    requires Rm(cfg, db, ctx, p, recursive, reaper).Ok?
    ensures ViewOf(Rm(cfg, db, ctx, p, recursive, reaper).value.db.entries) == Removed(ViewOf(db.entries), p, recursive)
  {
    hide AssertWritable, AssertNotLocked, HasChild, SnapshotRemoved, Under, Total;
  }

  lemma RenameView(cfg: Config, db: Db, ctx: Ctx, f: string, t: string, reaper: Reaper)
    requires WellFormed(db) && IsPath(f) && IsPath(t) && Rename(cfg, db, ctx, f, t, reaper).Ok?
    ensures ViewOf(Rename(cfg, db, ctx, f, t, reaper).value.entries) == Renamed(ViewOf(db.entries), f, t)
  {
    hide AssertWritable, AssertNotLocked, SnapshotRemoved, Under, MkdirChain, AddDirs, ParentOf, BaseName, IsPath,
         WellFormed, Rewrite, Rename, AfterMove, Shifted;
    if f == t {
      SameRename(cfg, db, ctx, f, reaper);
    } else {
      RenameShape(cfg, db, ctx, f, t, reaper);
      ChainView(db.entries - {t}, ParentOf(t));
      assert ViewOf(db.entries - {t}) == ViewOf(db.entries) - {t};
      ShiftView(MkdirChain(db.entries - {t}, ParentOf(t)).value, f, t);
    }
  }

  lemma ShiftView(entries: map<string, Row>, f: string, t: string)
    ensures ViewOf(AfterMove(entries, f, t)) == Shifted(ViewOf(entries), f, t)
  {
    hide AtOrUnder, Rewrite, ParentOf, BaseName;
    var image := set p | p in entries && AtOrUnder(p, f) :: Rewrite(p, f, t);
    assert image == set p | p in ViewOf(entries) && AtOrUnder(p, f) :: Rewrite(p, f, t);
    assert Moved(entries, f, t).Keys == set q | q in image && Rewrite(q, t, f) in entries;
  }

  // ---- the verbs under a buffer: what is still pending commutes with all of them --------------------

  // No brand-new buffered file sits where a directory is about to be made.
  ghost predicate Clear(v: View, pending: Pending, d: string) {
    forall q :: q in pending && q !in v ==> !AtOrUnder(d, q)
  }

  lemma OverlayOneDir(v: View, pending: Pending, d: string)
    requires d !in v && d !in pending
    ensures Overlay(v[d := DirNode], pending) == Overlay(v, pending)[d := DirNode]
  {
    hide Flat;
    SameButAt(v, pending, v[d := DirNode], pending, d, DirNode);
  }

  lemma {:induction false} OverlayAddDirs(v: View, pending: Pending, d: string)
    requires IsPath(d) && Clear(v, pending, d)
    ensures Overlay(AddDirs(v, d), pending) == AddDirs(Overlay(v, pending), d)
    ensures forall q :: q in v ==> q in AddDirs(v, d) && AddDirs(v, d)[q] == v[q]
    ensures forall q :: q in AddDirs(v, d) && q !in v ==> AtOrUnder(d, q) && AddDirs(v, d)[q] == DirNode
    decreases |d|
  {
    hide ParentOf, BaseName, FixedRoot, Flat, IsPath, Under, Overlay;
    if !FixedRoot(d) {
      NotRoot(d);
      PathParts(d);
      var e := ParentOf(d);
      if e == "/" {
        RootAddsNothing(v, e);
        RootAddsNothing(Overlay(v, pending), e);
      } else {
        forall q | AtOrUnder(e, q) ensures AtOrUnder(d, q) { UnderTransitive(d, e, q); }
        OverlayAddDirs(v, pending, e);
      }
      assert AtOrUnder(d, d);
      OverlayKeys(AddDirs(v, e), pending);
      if d !in AddDirs(v, e) && d !in pending { OverlayOneDir(AddDirs(v, e), pending, d); }
    }
  }

  lemma OverlayKeys(v: View, pending: Pending)
    ensures Overlay(v, pending).Keys == v.Keys + pending.Keys
  {
    hide Flat;
  }

  lemma OverlayWritten(v: View, pending: Pending, p: string, bytes: Bytes)
    requires IsPath(p) && p != "/" && p !in pending && Clear(v, pending, ParentOf(p))
    ensures Overlay(Written(v, p, bytes), pending) == Written(Overlay(v, pending), p, bytes)
  {
    hide ParentOf, BaseName, FixedRoot, Flat, IsPath, Under, AddDirs;
    PathParts(p);
    OverlayAddDirs(v, pending, ParentOf(p));
    var u := AddDirs(v, ParentOf(p));
    assert bytes + [] == bytes;
    SameButAt(u, pending, u[p := FileNode(bytes)], pending, p, FileNode(bytes));
  }

  lemma OverlayRemoved(v: View, pending: Pending, p: string, recursive: bool)
    requires forall q :: q in pending ==> !(q == p || (recursive && Under(q, p)))
    ensures Overlay(Removed(v, p, recursive), pending) == Removed(Overlay(v, pending), p, recursive)
  {
    hide Flat, Under;
    var a, b := Overlay(Removed(v, p, recursive), pending), Removed(Overlay(v, pending), p, recursive);
    assert a.Keys == b.Keys;
  }

  function Image(v: View, f: string, t: string): set<string> {
    set p | p in v && AtOrUnder(p, f) :: Rewrite(p, f, t)
  }

  lemma ImageBelow(v: View, f: string, t: string, q: string)
    requires IsPath(f) && IsPath(t) && f != "/" && t != "/" && q in Image(v, f, t)
    requires forall p :: p in v && AtOrUnder(p, f) ==> IsPath(p)
    ensures AtOrUnder(q, t) && Rewrite(q, t, f) in v && AtOrUnder(Rewrite(q, t, f), f)
  {
    hide IsPath, Rewrite, Under;
    var p :| p in v && AtOrUnder(p, f) && q == Rewrite(p, f, t);
    RewriteIsPath(p, f, t);
    RewriteBack(p, f, t);
  }

  // One path of a shifted view.
  lemma ShiftedHas(v: View, f: string, t: string, q: string)
    requires IsPath(f) && IsPath(t) && f != "/" && t != "/"
    requires forall p :: p in v && AtOrUnder(p, f) ==> IsPath(p)
    ensures q in Image(v, f, t) ==>
              q in Shifted(v, f, t) && Rewrite(q, t, f) in v && Shifted(v, f, t)[q] == v[Rewrite(q, t, f)]
    ensures q !in Image(v, f, t) ==> (q in Shifted(v, f, t) <==> q in v && !AtOrUnder(q, f))
    ensures q !in Image(v, f, t) && q in v && !AtOrUnder(q, f) ==> Shifted(v, f, t)[q] == v[q]
  {
    hide Under, Rewrite, IsPath;
    if q in Image(v, f, t) { ImageBelow(v, f, t, q); }
  }

  lemma OverlayHas(v: View, pending: Pending, q: string)
    ensures q in Overlay(v, pending) <==> q in v || q in pending
    ensures q !in pending && q in v ==> Overlay(v, pending)[q] == v[q]
    ensures q in pending ==> Overlay(v, pending)[q]
                             == if IsDirNode(v, q) then DirNode else FileNode(Content(v, q) + Buffered(pending, q))
  {
    hide Flat;
    if q !in pending && q in v && v[q].FileNode? { assert v[q].content + [] == v[q].content; }
  }

  lemma ImageOfOverlay(v: View, pending: Pending, f: string, t: string)
    requires forall q :: q in pending ==> !AtOrUnder(q, f)
    ensures Image(Overlay(v, pending), f, t) == Image(v, f, t)
  {
    hide Under, Rewrite, Flat;
    OverlayKeys(v, pending);
  }

  lemma ShiftedAt(v: View, pending: Pending, f: string, t: string, q: string)
    requires forall x :: x in pending ==> !AtOrUnder(x, f) && !AtOrUnder(x, t)
    requires IsPath(f) && IsPath(t) && f != "/" && t != "/"
    requires forall x :: x in v ==> IsPath(x)
    ensures q in Overlay(Shifted(v, f, t), pending) <==> q in Shifted(Overlay(v, pending), f, t)
    ensures q in Overlay(Shifted(v, f, t), pending) ==>
              Overlay(Shifted(v, f, t), pending)[q] == Shifted(Overlay(v, pending), f, t)[q]
  {
    hide Under, Rewrite, IsPath, Overlay, Shifted, Image, Buffered;
    OverlayKeys(v, pending);
    ShiftedHas(v, f, t, q);
    ShiftedHas(Overlay(v, pending), f, t, q);
    ImageOfOverlay(v, pending, f, t);
    OverlayHas(v, pending, q);
    OverlayHas(Shifted(v, f, t), pending, q);
    if q in Image(v, f, t) {
      ImageBelow(v, f, t, q);
      OverlayHas(v, pending, Rewrite(q, t, f));
    }
  }

  lemma OverlayShifted(v: View, pending: Pending, f: string, t: string)
    requires forall q :: q in pending ==> !AtOrUnder(q, f) && !AtOrUnder(q, t)
    requires IsPath(f) && IsPath(t) && f != "/" && t != "/"
    requires forall q :: q in v ==> IsPath(q)
    ensures Overlay(Shifted(v, f, t), pending) == Shifted(Overlay(v, pending), f, t)
  {
    hide Under, IsPath, Overlay, Shifted;
    var a, b := Overlay(Shifted(v, f, t), pending), Shifted(Overlay(v, pending), f, t);
    forall q ensures (q in a <==> q in b) && (q in a ==> a[q] == b[q]) { ShiftedAt(v, pending, f, t, q); }
  }

  lemma {:induction false} AddDirsPaths(v: View, d: string)
    requires IsPath(d) && forall q :: q in v ==> IsPath(q)
    ensures forall q :: q in AddDirs(v, d) ==> IsPath(q)
    decreases |d|
  {
    hide ParentOf, BaseName, FixedRoot, IsPath;
    if !FixedRoot(d) {
      NotRoot(d);
      PathParts(d);
      AddDirsPaths(v, ParentOf(d));
    }
  }

  lemma OverlayRenamed(v: View, pending: Pending, f: string, t: string)
    requires IsPath(f) && IsPath(t) && f != "/" && t != "/" && forall q :: q in v ==> IsPath(q)
    requires forall q :: q in pending ==> !AtOrUnder(q, f) && !AtOrUnder(q, t)
    requires Clear(v, pending, ParentOf(t))
    ensures Overlay(Renamed(v, f, t), pending) == Renamed(Overlay(v, pending), f, t)
  {
    hide Flat, Under, IsPath, AddDirs, ParentOf, BaseName, Shifted;
    var rest := v - {t};
    assert AtOrUnder(t, t);
    PathParts(t);
    assert Overlay(rest, pending) == Overlay(v, pending) - {t};
    ClearWithout(v, pending, ParentOf(t), t);
    OverlayAddDirs(rest, pending, ParentOf(t));
    AddDirsPaths(rest, ParentOf(t));
    OverlayShifted(AddDirs(rest, ParentOf(t)), pending, f, t);
  }

  lemma ClearWithout(v: View, pending: Pending, d: string, t: string)
    requires Clear(v, pending, d) && t !in pending
    ensures Clear(v - {t}, pending, d)
  {
    hide Under;
  }

  ghost predicate AgreeOff(x: View, y: View, p: string) {
    forall q :: q != p ==> (q in x <==> q in y) && (q in x ==> x[q] == y[q])
  }

  lemma {:induction false} AddDirsElsewhere(x: View, y: View, d: string, p: string)
    requires AgreeOff(x, y, p)
    ensures AgreeOff(AddDirs(x, d), AddDirs(y, d), p)
    decreases |d|
  {
    hide ParentOf, FixedRoot;
    if !FixedRoot(d) && |ParentOf(d)| < |d| { AddDirsElsewhere(x, y, ParentOf(d), p); }
  }

  // A truncating write supersedes whatever was buffered for its path.
  lemma WrittenDropsBuffer(v: View, pending: Pending, p: string, bytes: Bytes)
    ensures Written(Overlay(v, pending - {p}), p, bytes) == Written(Overlay(v, pending), p, bytes)
  {
    hide Flat, AddDirs, ParentOf;
    var d, a, b := ParentOf(p), Overlay(v, pending - {p}), Overlay(v, pending);
    assert AgreeOff(a, b, p);
    AddDirsElsewhere(a, b, d, p);
    AgreeingPut(AddDirs(a, d), AddDirs(b, d), p, FileNode(bytes));
  }

  lemma AgreeingPut(x: View, y: View, p: string, node: Node)
    requires AgreeOff(x, y, p)
    ensures x[p := node] == y[p := node]
  {
  }

  // ---- which buffered paths can still land after a verb ------------------------------------------------

  lemma LandableInView(entries: map<string, Row>, q: string)
    ensures Landable(entries, q) <==>
              IsPath(q) && q != "/" && IsDirNode(ViewOf(entries), ParentOf(q)) && !IsDirNode(ViewOf(entries), q)
  {
    hide IsPath, ParentOf;
  }

  // Making directories where no new buffered file sits leaves every buffered path landable.
  lemma AddedStaysLandable(v: View, pending: Pending, d: string, q: string)
    requires IsPath(d) && Clear(v, pending, d) && q in pending && IsDirNode(v, ParentOf(q)) && !IsDirNode(v, q)
    ensures IsDirNode(AddDirs(v, d), ParentOf(q)) && !IsDirNode(AddDirs(v, d), q)
  {
    hide IsPath, ParentOf, AddDirs, Overlay, Under;
    OverlayAddDirs(v, pending, d);
  }

  lemma ShiftedStaysLandable(v: View, f: string, t: string, q: string)
    requires IsPath(f) && IsPath(t) && f != "/" && t != "/" && forall x :: x in v ==> IsPath(x)
    requires IsPath(q) && q != "/" && !AtOrUnder(q, f) && !AtOrUnder(q, t)
    requires forall x :: x in v ==> !AtOrUnder(x, t)
    requires IsDirNode(v, ParentOf(q)) && !IsDirNode(v, q)
    ensures IsDirNode(Shifted(v, f, t), ParentOf(q)) && !IsDirNode(Shifted(v, f, t), q)
  {
    hide IsPath, ParentOf, BaseName, Under, Rewrite;
    var d := ParentOf(q);
    PathParts(q);
    if AtOrUnder(d, f) {
      if d == "/" { RootIsUnderNothing(f); }
      UnderTransitive(q, d, f);
    }
    if d in Image(v, f, t) { ImageBelow(v, f, t, d); }
    if q in Image(v, f, t) { ImageBelow(v, f, t, q); }
  }
}
