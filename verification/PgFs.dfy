// packages/mcp-tools/src/pg-fs.ts: the adapter a shell script runs on. It buffers appends and
// memoises stats and listings over one FsStore; what it shows is the unbuffered file system.
module PgMounts {
  import opened Options
  import opened Paths
  import opened FsDb
  import opened FsTree
  import opened FsLocks
  import opened FsStores
  import opened Lists
  import opened PgView

  const APPEND_FLUSH_BYTES := 1_048_576

  // A path as the shell resolves it: no trailing slash.
  type Resolved = p: string | |p| <= 1 || p[|p| - 1] != '/'
  type MountRoot = p: string | |p| > 1 && p[|p| - 1] != '/' witness "/shared"

  datatype Meta = Meta(path: string, name: string, kind: Kind, size: nat)

  // What the mount throws: a store refusal, a store round trip that failed, its own EEXIST, or the
  // one error of flushAll naming every path whose bytes did not land.
  datatype Trouble = Refused(error: FsError) | Transient | Exists | NotSaved(paths: seq<string>)
  datatype Reply<T> = Done(value: T) | Thrown(trouble: Trouble)

  // Per path: whether a store append's round trip goes through, and what its housekeeping evicts.
  datatype Weather = Weather(up: string -> bool, reaper: string -> Reaper)

  function MetaOf(p: string, r: Row): Meta { Meta(p, r.name, r.kind, r.size) }
  function StatOf(entries: map<string, Row>, p: string): Option<Meta> {
    if p in entries then Some(MetaOf(p, entries[p])) else None
  }
  function ListOf(entries: map<string, Row>, d: string): set<Meta> {
    set p | p in entries && entries[p].parent == d :: MetaOf(p, entries[p])
  }

  // posix.dirname
  function Trim(p: string): Resolved { if |p| > 1 && p[|p| - 1] == '/' then Trim(p[..|p| - 1]) else p }
  function DirName(p: string): Resolved { Trim(ParentOf(p)) }

  lemma DirNameOfPath(p: string)
    requires IsPath(p) && p != "/"
    ensures DirName(p) == ParentOf(p)
  {
    PathParts(p);
    var d := ParentOf(p);
    assert d == "/" || d[|d| - 1] != '/';
  }

  // A parent of a path the store accepts is one too.
  lemma ParentNormalizes(p: Resolved)
    requires NormalizeFsPath(p).Some? && p != "/"
    ensures NormalizeFsPath(DirName(p)).Some?
  {
    hide DirName, BaseName;
    NormalizeResolved(p);
    DirNameOfPath(p);
    var d := ParentOf(p);
    if d != "/" {
      var k := LastSlash(p);
      assert d == p[..k];
      PathParts(p);
      assert forall i :: 0 <= i < k ==> d[i] == p[i];
      if HasDotSegment(d) {
        var i :| 0 <= i < |d| && DotSegmentAt(d, i);
        DotSegmentStays(p, k, i);
      }
    }
  }

  lemma DotSegmentStays(p: string, k: nat, i: nat)
    requires i < k < |p| && p[k] == '/' && DotSegmentAt(p[..k], i)
    ensures DotSegmentAt(p, i)
  {
    var rest, all := p[..k][i + 1..], p[i + 1..];
    assert all[..|rest|] == rest && all[|rest|] == '/';
    assert all[..|rest| + 1] == rest + "/";
  }

  // The memos tell what the store would.
  ghost predicate CachesTell(entries: map<string, Row>, stats: map<string, Option<Meta>>,
                             lists: map<string, set<Meta>>) {
    && (forall p :: p in stats ==> stats[p] == StatOf(entries, p))
    && forall d :: d in lists ==> IsDir(entries, d) && lists[d] == ListOf(entries, d)
  }

  lemma NormalizeResolved(p: Resolved)
    ensures NormalizeFsPath(p).Some? ==> NormalizeFsPath(p).value == p && IsPath(p)
  {
  }

  // A landed append leaves every memo but those of its own path and parent true.
  lemma LandingKeepsMemos(before: map<string, Row>, after: map<string, Row>, p: string, bytes: Bytes,
                          stats: map<string, Option<Meta>>, lists: map<string, set<Meta>>)
    requires Tree(before) && Tree(after) && AppendedRow(before, after, p, bytes) && !IsDir(before, p)
    requires CachesTell(before, stats, lists)
    ensures CachesTell(after, stats - {p}, lists - {p, ParentOf(p)})
  {
    hide Tree, RowOk, ParentOf;
    TreeParent(after, p);
    if p in before { TreeParent(before, p); }
    forall d | d in lists && d != ParentOf(p) ensures ListOf(after, d) == ListOf(before, d) {
      ListElsewhere(before, after, p, d);
    }
  }

  lemma TreeParent(entries: map<string, Row>, p: string)
    requires Tree(entries) && p in entries
    ensures entries[p].parent == ParentOf(p)
  {
    TreeRow(entries, p);
  }

  lemma LandingKeepsLandable(before: map<string, Row>, after: map<string, Row>, p: string, bytes: Bytes, q: string)
    requires AppendedRow(before, after, p, bytes) && !IsDir(before, p) && Landable(before, q)
    ensures Landable(after, q)
  {
    hide IsPath, ParentOf;
  }

  lemma ListElsewhere(before: map<string, Row>, after: map<string, Row>, p: string, d: string)
    requires p in after && after == before[p := after[p]] && after[p].parent != d
    requires p in before ==> before[p].parent != d
    ensures ListOf(after, d) == ListOf(before, d)
  {
    assert forall q :: q in after && after[q].parent == d <==> q in before && before[q].parent == d;
  }

  // Midway through a settle-all: the failures so far, then the keys still to try.
  ghost predicate Queued(order: seq<string>, failures: seq<string>, keys: seq<string>, i: nat) {
    i <= |keys| && order == failures + keys[i..]
  }

  lemma QueueStarts(keys: seq<string>)
    ensures Queued(keys, [], keys, 0)
  {
    assert [] + keys[0..] == keys;
  }

  lemma QueueEnds(order: seq<string>, failures: seq<string>, keys: seq<string>)
    requires Queued(order, failures, keys, |keys|)
    ensures order == failures
  {
  }

  lemma QueueMoves(order: seq<string>, failures: seq<string>, keys: seq<string>, i: nat)
    requires Queued(order, failures, keys, i) && i < |keys| && NoRepeats(order)
    ensures keys[i] in order
    ensures Queued(order, failures + [keys[i]], keys, i + 1)
    ensures Queued(Without(order, keys[i]), failures, keys, i + 1)
  {
    hide NoRepeats;
    MiddleIsNew(failures, keys, i);
    WithoutMiddle(failures, keys[i], keys[i + 1..]);
    assert order[|failures|] == keys[i];
  }

  lemma StillQueued(before: Pending, pending: Pending, order: seq<string>, failures: seq<string>, keys: seq<string>,
                    i: nat)
    requires i < |keys| && Queued(order, failures, keys, i) && Kept(before, pending)
    requires forall p :: p in order <==> p in pending
    ensures keys[i] in pending && keys[i] in before && pending[keys[i]] == before[keys[i]]
  {
    assert order[|failures|] == keys[i];
  }

  // A flush never touches the bytes of a path it leaves behind, and tells the trailer what it landed.
  ghost predicate Kept(before: Pending, after: Pending) {
    forall q :: q in after ==> q in before && after[q] == before[q]
  }

  ghost predicate Told(wrote0: set<string>, wrote: set<string>, deleted0: set<string>, deleted: set<string>,
                       landed: set<string>) {
    wrote == wrote0 + landed && deleted == deleted0 - landed
  }

  // ---- when the store takes a call ---------------------------------------------------------------

  ghost predicate Appends(cfg: Config, db: Db, ctx: Ctx, p: string, bytes: Bytes, reaper: Reaper) {
    NormalizeFsPath(p).Some? && Append(cfg, db, ctx, NormalizeFsPath(p).value, bytes, reaper).Ok?
  }

  ghost predicate Removes(cfg: Config, db: Db, ctx: Ctx, p: string, recursive: bool, force: bool, reaper: Reaper) {
    && NormalizeFsPath(p).Some?
    && var r := FsDb.Rm(cfg, db, ctx, NormalizeFsPath(p).value, recursive, reaper);
       r.Ok? || (force && r.error == ENOENT)
  }

  ghost predicate Renames(cfg: Config, db: Db, ctx: Ctx, f: string, t: string, reaper: Reaper) {
    && NormalizeFsPath(f).Some? && NormalizeFsPath(t).Some?
    && FsDb.Rename(cfg, db, ctx, NormalizeFsPath(f).value, NormalizeFsPath(t).value, reaper).Ok?
  }

  ghost predicate Makes(db: Db, ctx: Ctx, p: string) {
    NormalizeFsPath(p).Some? && FsDb.Mkdir(db, ctx, NormalizeFsPath(p).value).Ok?
  }

  // A buffer lands when its round trip goes through and the store takes the append.
  ghost predicate LandsIn(cfg: Config, db: Db, ctx: Ctx, p: string, chunks: seq<Bytes>, w: Weather) {
    w.up(p) && Appends(cfg, db, ctx, p, Flat(chunks), w.reaper(p))
  }

  function ChunksOf(pending: Pending, p: string): seq<Bytes> { if p in pending then pending[p].chunks else [] }
  function BytesOf(pending: Pending, p: string): nat { if p in pending then pending[p].bytes else 0 }

  // The store once p's flush has been tried.
  ghost function Landed(cfg: Config, db: Db, ctx: Ctx, p: string, pending: Pending, w: Weather): Db {
    if p in pending && LandsIn(cfg, db, ctx, p, pending[p].chunks, w)
    then Apply(cfg, db, Call(ctx, OpAppend(p, Flat(pending[p].chunks), w.reaper(p))))
    else db
  }

  // The store once every path's flush has been tried in order, and the paths that stay buffered.
  ghost function Settle(cfg: Config, db: Db, ctx: Ctx, pending: Pending, keys: seq<string>,
                        w: Weather): (Db, seq<string>) {
    if keys == [] then (db, [])
    else
      var (before, left) := Settle(cfg, db, ctx, pending, keys[..|keys| - 1], w);
      var p := keys[|keys| - 1];
      (Landed(cfg, before, ctx, p, pending, w),
       if p in pending && LandsIn(cfg, before, ctx, p, pending[p].chunks, w) then left else left + [p])
  }

  ghost predicate SettledTo(cfg: Config, db0: Db, ctx: Ctx, pending: Pending, keys: seq<string>, i: nat, w: Weather,
                            db: Db, left: seq<string>)
  {
    i <= |keys| && Settle(cfg, db0, ctx, pending, keys[..i], w) == (db, left)
  }

  lemma NothingSettled(cfg: Config, db: Db, ctx: Ctx, pending: Pending, keys: seq<string>, w: Weather)
    ensures SettledTo(cfg, db, ctx, pending, keys, 0, w, db, []) && Settle(cfg, db, ctx, pending, [], w) == (db, [])
  {
  }

  lemma SettleNext(cfg: Config, db0: Db, ctx: Ctx, pending0: Pending, pending: Pending, keys: seq<string>, i: nat,
                   w: Weather, db: Db, left: seq<string>)
    requires SettledTo(cfg, db0, ctx, pending0, keys, i, w, db, left) && i < |keys|
    requires keys[i] in pending0 && keys[i] in pending && pending[keys[i]] == pending0[keys[i]]
    ensures var p := keys[i];
            SettledTo(cfg, db0, ctx, pending0, keys, i + 1, w, Landed(cfg, db, ctx, p, pending, w),
                      if LandsIn(cfg, db, ctx, p, pending[p].chunks, w) then left else left + [p])
  {
    hide LandsIn, Apply;
    assert keys[..i + 1][..i] == keys[..i];
  }

  lemma AllSettled(cfg: Config, db0: Db, ctx: Ctx, pending: Pending, keys: seq<string>, w: Weather, db: Db,
                   left: seq<string>)
    requires SettledTo(cfg, db0, ctx, pending, keys, |keys|, w, db, left)
    ensures Settle(cfg, db0, ctx, pending, keys, w) == (db, left)
  {
    assert keys[..|keys|] == keys;
  }

  function StoreRead(entries: map<string, Row>, p: string): Result<Bytes> {
    if NormalizeFsPath(p).None? then Err(EINVAL)
    else if p !in entries then Err(ENOENT)
    else if entries[p].kind.Dir? then Err(EISDIR)
    else Ok(entries[p].content)
  }

  // ---- the reference: what each verb does to an unbuffered file system ------------------------------

  datatype Verb =
    | AppendV(rel: Resolved, chunk: Bytes)
    | WriteV(rel: Resolved, bytes: Bytes)
    | MkdirV(rel: Resolved, recursive: bool)
    | RmV(rel: Resolved, recursive: bool, force: bool)
    | MvV(src: Resolved, dest: Resolved)
    | ReadV(rel: Resolved)
    | StatV(rel: Resolved)
    | ListV(rel: Resolved)

  function AbsPath(root: MountRoot, rel: Resolved): (p: Resolved)
    ensures |p| > 1
  {
    if rel == "/" then root else root + rel
  }

  function Direct(root: MountRoot, v: View, verb: Verb): View {
    match verb
    case AppendV(rel, chunk) => Appended(v, AbsPath(root, rel), chunk)
    case WriteV(rel, bytes) => Written(v, AbsPath(root, rel), bytes)
    case MkdirV(rel, _) => AddDirs(v, AbsPath(root, rel))
    case RmV(rel, recursive, _) => Removed(v, AbsPath(root, rel), recursive)
    case MvV(src, dest) => Renamed(v, AbsPath(root, src), AbsPath(root, dest))
    case _ => v
  }

  // The parents of an appended path are there, and no file sits where a new directory would go.
  ghost predicate Fits(root: MountRoot, v: View, verb: Verb) {
    match verb
    case AppendV(rel, _) =>
      var p := AbsPath(root, rel);
      IsPath(p) && IsDirNode(v, ParentOf(p)) && !IsDirNode(v, p)
    case WriteV(rel, _) => NoFileAbove(v, ParentOf(AbsPath(root, rel)))
    case MkdirV(rel, _) => NoFileAbove(v, ParentOf(AbsPath(root, rel)))
    case _ => true
  }

  ghost predicate NoFileAbove(v: View, d: string) {
    forall q :: q in v && v[q].FileNode? ==> !AtOrUnder(d, q)
  }

  // A script none of whose verbs was refused.
  function DirectRun(root: MountRoot, v: View, verbs: seq<Verb>): View {
    if verbs == [] then v
    else Direct(root, DirectRun(root, v, verbs[..|verbs| - 1]), verbs[|verbs| - 1])
  }

  datatype FsStat = FsStat(isDirectory: bool, size: nat)

  function StatNode(n: Node): FsStat {
    match n case DirNode => FsStat(true, 0) case FileNode(content) => FsStat(false, |content|)
  }

  function Children(paths: set<string>, d: string): set<string> {
    set q | q in paths && ParentOf(q) == d :: BaseName(q)
  }

  // One moment of a mount.
  datatype Mount = Mount(db: Db, order: seq<string>, pending: Pending, lockProbed: set<string>, sound: bool)

  function ViewIn(m: Mount): View { Overlay(ViewOf(m.db.entries), m.pending) }

  // An append reaches the buffer: no read-only context, no lock seen at the redirect.
  predicate Enters(ctx: Ctx, m: Mount, p: string) {
    !ctx.readOnly && (p in m.lockProbed || NormalizeFsPath(p).None? || !LockedSelfOrAbove(m.db.entries, p))
  }

  // The verbs the mount does not refuse at that moment.
  ghost predicate Goes(cfg: Config, ctx: Ctx, root: MountRoot, m: Mount, verb: Verb, w: Weather) {
    match verb
    case AppendV(rel, chunk) =>
      var p := AbsPath(root, rel);
      && Enters(ctx, m, p)
      && (BytesOf(m.pending, p) + |chunk| >= APPEND_FLUSH_BYTES ==>
            LandsIn(cfg, m.db, ctx, p, ChunksOf(m.pending, p) + [chunk], w))
    case WriteV(rel, bytes) =>
      var p := AbsPath(root, rel);
      NormalizeFsPath(p).Some? && Write(cfg, m.db, ctx, p, bytes, None, w.reaper(p)).Ok?
    case MkdirV(rel, recursive) =>
      var p := AbsPath(root, rel);
      var db := Landed(cfg, m.db, ctx, p, m.pending, w);
      && (p in m.pending ==> LandsIn(cfg, m.db, ctx, p, m.pending[p].chunks, w))
      && (recursive || (p !in db.entries && (p == root || DirName(p) in db.entries)))
      && Makes(db, ctx, p)
    case RmV(rel, recursive, force) =>
      var p := AbsPath(root, rel);
      var (db, left) := Settle(cfg, m.db, ctx, m.pending, m.order, w);
      && (forall q :: q in left ==> !(q == p || (recursive && Under(q, p))))
      && Removes(cfg, db, ctx, p, recursive, force, w.reaper(p))
    case MvV(src, dest) =>
      var f, t := AbsPath(root, src), AbsPath(root, dest);
      var (db, left) := Settle(cfg, m.db, ctx, m.pending, m.order, w);
      && (forall q :: q in left ==> !AtOrUnder(q, f) && q != t)
      && Renames(cfg, db, ctx, f, t, w.reaper(t))
    case _ => true
  }

  // What a verb gave back, whether it took effect, and whether an answer saw all that came before.
  datatype Answer = Changed | Bytes(bytes: Bytes) | Node(stat: FsStat) | Names(names: set<string>)
  datatype Deed = Deed(reply: Reply<Answer>, took: bool, exact: bool, clean: bool)

  function DeedOf(r: Reply<()>, took: bool, clean: bool): Deed {
    Deed(if r.Done? then Done(Changed) else Thrown(r.trouble), took, true, clean)
  }

  // A refused write over buffered bytes loses them; an rm or mv may leave a buffered path whose
  // flush failed below a directory it took away or where its target's parents go. Every other verb
  // is clean.
  predicate Clean(root: MountRoot, before: Pending, verb: Verb, took: bool, after: Pending) {
    match verb
    case WriteV(rel, _) => took || AbsPath(root, rel) !in before
    case RmV(rel, _, _) => took ==> forall q | q in after :: ParentOf(q) != AbsPath(root, rel)
    case MvV(_, dest) => took ==> NoneAbove(after, ParentOf(AbsPath(root, dest)))
    case _ => true
  }

  // What one verb does: refused exactly when it does not go, taking effect whenever it is not
  // refused (and for an append as soon as it enters the buffer), clean or not as the buffer shows,
  // answering from all that came before unless a flush it needed failed; and, clean, it moves the
  // view as the unbuffered verb does.
  ghost predicate Did(cfg: Config, ctx: Ctx, root: MountRoot, m: Mount, verb: Verb, w: Weather, d: Deed, m': Mount) {
    var asks := verb.ReadV? || verb.StatV? || verb.ListV?;
    && (!asks && (m.sound || !verb.MkdirV?) ==> (d.reply.Done? <==> Goes(cfg, ctx, root, m, verb, w)))
    && (d.took <==> asks || d.reply.Done? || (verb.AppendV? && Enters(ctx, m, AbsPath(root, verb.rel))))
    && (d.clean <==> Clean(root, m.pending, verb, d.took, m'.pending))
    && (d.exact <==> match verb
                     case ReadV(rel) => AbsPath(root, rel) !in m'.pending
                     case ListV(rel) => m'.pending.Keys <= m'.db.entries.Keys
                     case _ => true)
    && (m.sound && d.clean && Fits(root, ViewIn(m), verb) ==>
          && m'.sound && ViewIn(m') == (if d.took then Direct(root, ViewIn(m), verb) else ViewIn(m))
          && (d.exact && Legal(root, verb) ==> Right(root, ViewIn(m), verb, d.reply)))
  }

  predicate Legal(root: MountRoot, verb: Verb) {
    verb.ReadV? || verb.StatV? || verb.ListV? ==> NormalizeFsPath(AbsPath(root, verb.rel)).Some?
  }

  // The answers of the unbuffered file system.
  ghost predicate Right(root: MountRoot, v: View, verb: Verb, reply: Reply<Answer>) {
    match verb
    case ReadV(rel) =>
      var p := AbsPath(root, rel);
      && (reply.Done? <==> p in v && v[p].FileNode?)
      && (reply.Done? ==> reply.value == Bytes(v[p].content))
    case StatV(rel) =>
      var p := AbsPath(root, rel);
      reply == if p in v then Done(Node(StatNode(v[p]))) else Thrown(Refused(ENOENT))
    case ListV(rel) =>
      var p := AbsPath(root, rel);
      && (reply.Done? <==> IsDirNode(v, p))
      && (reply.Done? ==> reply.value == Names(Children(v.Keys, p)))
    case _ => reply.Done? ==> reply.value.Changed?
  }

  // The unbuffered file system after the verbs that took effect.
  function After(root: MountRoot, v: View, verbs: seq<Verb>, deeds: seq<Deed>): View
    requires |verbs| == |deeds|
  {
    if verbs == [] then v
    else
      var n := |verbs| - 1;
      var before := After(root, v, verbs[..n], deeds[..n]);
      if deeds[n].took then Direct(root, before, verbs[n]) else before
  }

  ghost predicate FitsSoFar(root: MountRoot, v: View, verbs: seq<Verb>, deeds: seq<Deed>)
    requires |verbs| == |deeds|
  {
    forall i :: 0 <= i < |verbs| ==> Fits(root, After(root, v, verbs[..i], deeds[..i]), verbs[i])
  }

  ghost predicate AllRight(root: MountRoot, v: View, verbs: seq<Verb>, deeds: seq<Deed>)
    requires |verbs| == |deeds|
  {
    forall i :: 0 <= i < |verbs| && deeds[i].exact && Legal(root, verbs[i]) ==>
      Right(root, After(root, v, verbs[..i], deeds[..i]), verbs[i], deeds[i].reply)
  }

  predicate AllClean(deeds: seq<Deed>) {
    forall i :: 0 <= i < |deeds| ==> deeds[i].clean
  }

  // Up to the first verb that is not clean, and while every verb fits, the mount shows what the
  // unbuffered file system holds after the verbs that took effect, and answered as it would.
  ghost predicate Refines(root: MountRoot, v: View, verbs: seq<Verb>, deeds: seq<Deed>, mounts: seq<Mount>)
    requires |verbs| == |deeds| && |mounts| == |deeds| + 1
  {
    forall n :: 0 <= n <= |deeds| && AllClean(deeds[..n]) && FitsSoFar(root, v, verbs[..n], deeds[..n]) ==>
      && mounts[n].sound && ViewIn(mounts[n]) == After(root, v, verbs[..n], deeds[..n])
      && AllRight(root, v, verbs[..n], deeds[..n])
  }

  lemma NoDeeds(root: MountRoot, v: View, m: Mount)
    requires m.sound && ViewIn(m) == v
    ensures Refines(root, v, [], [], [m])
  {
  }

  lemma OneMoreRefines(root: MountRoot, v: View, verbs: seq<Verb>, deeds: seq<Deed>, mounts: seq<Mount>,
                       cfg: Config, ctx: Ctx, verb: Verb, w: Weather, deed: Deed, m: Mount)
    requires |verbs| == |deeds| && |mounts| == |deeds| + 1 && Refines(root, v, verbs, deeds, mounts)
    requires Did(cfg, ctx, root, mounts[|deeds|], verb, w, deed, m)
    ensures Refines(root, v, verbs + [verb], deeds + [deed], mounts + [m])
  {
    hide Fits, Right, Legal, Direct, After, FitsSoFar, AllRight, Clean, Goes, Enters, ViewIn;
    var verbs', deeds', mounts', k := verbs + [verb], deeds + [deed], mounts + [m], |deeds|;
    OneMoreDeed(root, v, verbs, deeds, verb, deed);
    assert verbs'[..k + 1] == verbs' && deeds'[..k + 1] == deeds' && verbs[..k] == verbs && deeds[..k] == deeds;
    forall n | 0 <= n <= k + 1 && AllClean(deeds'[..n]) && FitsSoFar(root, v, verbs'[..n], deeds'[..n])
      ensures mounts'[n].sound && ViewIn(mounts'[n]) == After(root, v, verbs'[..n], deeds'[..n])
      ensures AllRight(root, v, verbs'[..n], deeds'[..n])
    {
      if n <= k {
        assert verbs'[..n] == verbs[..n] && deeds'[..n] == deeds[..n];
      } else {
        assert forall i :: 0 <= i < k ==> deeds'[i] == deeds[i];
        assert deeds'[k].clean && AllClean(deeds[..k]);
      }
    }
  }

  lemma OneMoreDeed(root: MountRoot, v: View, verbs: seq<Verb>, deeds: seq<Deed>, verb: Verb, deed: Deed)
    requires |verbs| == |deeds|
    ensures var before := After(root, v, verbs, deeds);
            && After(root, v, verbs + [verb], deeds + [deed])
                 == (if deed.took then Direct(root, before, verb) else before)
            && (FitsSoFar(root, v, verbs + [verb], deeds + [deed]) <==>
                  FitsSoFar(root, v, verbs, deeds) && Fits(root, before, verb))
            && (AllRight(root, v, verbs + [verb], deeds + [deed]) <==>
                  AllRight(root, v, verbs, deeds)
                  && (deed.exact && Legal(root, verb) ==> Right(root, before, verb, deed.reply)))
  {
    hide Fits, Right, Legal, Direct;
    var verbs', deeds', n := verbs + [verb], deeds + [deed], |verbs|;
    assert verbs'[..n] == verbs && deeds'[..n] == deeds;
    forall i | 0 <= i < n ensures verbs'[..i] == verbs[..i] && deeds'[..i] == deeds[..i] {}
  }

  // A script that nothing refused.
  lemma {:induction false} NothingRefused(root: MountRoot, v: View, verbs: seq<Verb>, deeds: seq<Deed>)
    requires |verbs| == |deeds| && forall i :: 0 <= i < |deeds| ==> deeds[i].took
    ensures After(root, v, verbs, deeds) == DirectRun(root, v, verbs)
  {
    hide Direct;
    if verbs != [] { NothingRefused(root, v, verbs[..|verbs| - 1], deeds[..|verbs| - 1]); }
  }

  class PgFs {
    const store: FsStore
    const ctx: Ctx
    const root: MountRoot

    // Map keys in insertion order, and the map.
    var order: seq<string>
    var pending: Pending
    var lockProbed: set<string>
    var statCache: map<string, Option<Meta>>
    var listCache: map<string, set<Meta>>
    var wrote: set<string>
    var deleted: set<string>
    var unrecoverable: set<string>

    constructor (store: FsStore, ctx: Ctx, root: MountRoot)
      requires WellFormed(store.db)
      ensures this.store == store && this.ctx == ctx && this.root == root
      ensures Sound() && pending == map[] && Logical() == ViewOf(store.db.entries)
      ensures wrote == {} && deleted == {} && unrecoverable == {} && lockProbed == {}
    {
      this.store, this.ctx, this.root := store, ctx, root;
      order, pending, lockProbed, statCache, listCache := [], map[], {}, map[], map[];
      wrote, deleted, unrecoverable := {}, {}, {};
      new;
      OverlayNothing(ViewOf(store.db.entries));
    }

    ghost predicate Valid()
      reads this, store
    {
      && WellFormed(store.db) && NoRepeats(order) && (forall p :: p in order <==> p in pending)
      && (forall p :: p in pending ==> pending[p].bytes == |Flat(pending[p].chunks)|)
      && wrote !! deleted
    }

    // The state a single writer whose appended paths have their parents stays in.
    ghost predicate Sound()
      reads this, store
    {
      && Valid() && CachesTell(store.db.entries, statCache, listCache)
      && forall p :: p in pending ==> Landable(store.db.entries, p)
    }

    ghost function Now(): Mount
      reads this, store
    {
      Mount(store.db, order, pending, lockProbed, Sound())
    }

    // What the script sees.
    ghost function Logical(): View
      reads this, store
    {
      Overlay(ViewOf(store.db.entries), pending)
    }

    lemma ValidOrder()
      requires Valid()
      ensures NoRepeats(order) && forall p :: p in order <==> p in pending
    {
    }

    function Abs(rel: Resolved): (p: Resolved)
      ensures |p| > 1
    {
      AbsPath(root, rel)
    }

    method RecordWrite(p: string)
      modifies this`wrote, this`deleted
      ensures wrote == old(wrote) + {p} && deleted == old(deleted) - {p}
    {
      deleted := deleted - {p};
      wrote := wrote + {p};
    }

    method RecordDelete(p: string)
      modifies this`wrote, this`deleted
      ensures wrote == old(wrote) - {p} && deleted == old(deleted) + {p}
    {
      wrote := wrote - {p};
      deleted := deleted + {p};
    }

    method Invalidate(p: string)
      modifies this`statCache, this`listCache
      ensures statCache == old(statCache) - {p} && listCache == old(listCache) - {p, DirName(p)}
    {
      statCache := statCache - {p};
      listCache := listCache - {p};
      listCache := listCache - {DirName(p)};
    }

    method InvalidateAll()
      modifies this`statCache, this`listCache
      ensures statCache == map[] && listCache == map[]
    {
      statCache, listCache := map[], map[];
    }

    // After an append has landed: forget its buffer and the memos it made stale.
    method Unbuffer(p: string)
      requires NoRepeats(order) && (forall q :: q in order <==> q in pending) && wrote !! deleted
      modifies this`order, this`pending, this`statCache, this`listCache, this`wrote, this`deleted
      ensures pending == old(pending) - {p} && order == Without(old(order), p)
      ensures NoRepeats(order) && (forall q :: q in order <==> q in pending) && wrote !! deleted
      ensures wrote == old(wrote) + {p} && deleted == old(deleted) - {p}
      ensures statCache == old(statCache) - {p} && listCache == old(listCache) - {p, DirName(p)}
    {
      hide NoRepeats, Without;
      WithoutIs(order, p);
      pending, order := pending - {p}, Without(order, p);
      RecordWrite(p);
      Invalidate(p);
    }

    // After a write: every memo goes, and the written path's comes back with the row just stored.
    method Rememo(p: string)
      modifies this`statCache, this`listCache, this`wrote, this`deleted
      ensures statCache == map[p := StatOf(store.db.entries, p)] && listCache == map[]
      ensures wrote == old(wrote) + {p} && deleted == old(deleted) - {p}
    {
      InvalidateAll();
      statCache := statCache[p := StatOf(store.db.entries, p)];
      RecordWrite(p);
    }

    // Whether flushing p would land: the round trip goes through and the store takes the append.
    ghost predicate Lands(p: string, w: Weather)
      reads this, store
    {
      p in pending ==> LandsIn(store.cfg, store.db, ctx, p, pending[p].chunks, w)
    }

    // The buffer is cleared only after the append lands: all of it, or nothing at all.
    method Flush(p: string, w: Weather) returns (r: Reply<()>)
      requires Valid()
      modifies this`order, this`pending, this`statCache, this`listCache, this`wrote, this`deleted, store
      ensures Valid()
      ensures r.Done? <==> old(Lands(p, w))
      ensures r != Thrown(Refused(ENOENT))
      ensures r.Thrown? || p !in old(pending) ==> unchanged(this) && store.db == old(store.db)
      ensures store.db == old(Landed(store.cfg, store.db, ctx, p, pending, w))
      ensures r.Done? ==> pending == old(pending) - {p} && order == Without(old(order), p)
      ensures r.Done? && p in old(pending) ==>
                && store.db == Apply(store.cfg, old(store.db),
                                     Call(ctx, OpAppend(p, Flat(old(pending)[p].chunks), w.reaper(p))))
                && wrote == old(wrote) + {p} && deleted == old(deleted) - {p}
      ensures old(Sound()) ==> Sound() && Logical() == old(Logical())
                               && old(store.db.entries).Keys <= store.db.entries.Keys
    {
      hide Landable, WellFormed, Append, NormalizeFsPath, ViewOf, CachesTell, Overlay, DirName, NoRepeats, Flat,
           Without;
      if p !in pending {
        WithoutIs(order, p);
        assert pending - {p} == pending;
        return Done(());
      }
      var buf := pending[p];
      if !w.up(p) { return Thrown(Transient); }
      if NormalizeFsPath(p).Some? {
        AppendNeverMisses(store.cfg, store.db, ctx, NormalizeFsPath(p).value, Flat(buf.chunks), w.reaper(p));
      }
      var sent := store.Append(ctx, p, Flat(buf.chunks), w.reaper(p));
      if sent.Err? { return Thrown(Refused(sent.error)); }
      Unbuffer(p);
      r := Done(());
      if old(Sound()) {
        LandedSoundly(store.cfg, old(store.db), store.db, ctx, old(pending), p, w.reaper(p), old(statCache),
                      old(listCache));
      }
    }

    // Settle-all: every pending path gets its try, in order; the ones that fail keep their bytes.
    method FlushSettled(w: Weather) returns (failures: seq<string>, why: seq<Trouble>)
      requires Valid()
      modifies this`order, this`pending, this`statCache, this`listCache, this`wrote, this`deleted, store
      ensures Valid() && failures == order && |why| == |failures|
      ensures (store.db, order) == old(Settle(store.cfg, store.db, ctx, pending, order, w))
      ensures Kept(old(pending), pending)
              && Told(old(wrote), wrote, old(deleted), deleted, old(pending).Keys - pending.Keys)
      ensures old(pending) == map[] ==> unchanged(this) && store.db == old(store.db)
      ensures old(Sound()) ==> Sound() && Logical() == old(Logical())
    {
      hide Sound, Logical, Apply, Flat, Valid, Kept, Told, NoRepeats, Without, Queued, Settle, Landed, LandsIn,
           SettledTo;
      ghost var db0, pending0 := store.db, pending;
      var keys := order;
      failures, why := [], [];
      ValidOrder();
      EmptyOrder(order, pending);
      NothingLanded(pending, wrote, deleted);
      NothingSettled(store.cfg, store.db, ctx, pending, keys, w);
      if keys == [] { return; }
      QueueStarts(keys);
      var i := 0;
      while i < |keys|
        invariant 0 <= i <= |keys| && Valid() && Queued(order, failures, keys, i) && |why| == |failures|
        invariant SettledTo(store.cfg, db0, ctx, pending0, keys, i, w, store.db, failures)
        invariant Kept(old(pending), pending)
        invariant Told(old(wrote), wrote, old(deleted), deleted, old(pending).Keys - pending.Keys)
        invariant old(Sound()) ==> Sound() && Logical() == old(Logical())
      {
        var flushed;
        flushed, failures := FlushNext(keys, i, failures, w, db0, pending0, old(wrote), old(deleted));
        if flushed.Thrown? { why := why + [flushed.trouble]; }
        i := i + 1;
      }
      QueueEnds(order, failures, keys);
      AllSettled(store.cfg, db0, ctx, pending0, keys, w, store.db, failures);
    }

    // The next path's try; one that fails joins the failures.
    method FlushNext(keys: seq<string>, i: nat, failures: seq<string>, w: Weather, ghost db0: Db,
                     ghost pending0: Pending, ghost wrote0: set<string>, ghost deleted0: set<string>)
      returns (r: Reply<()>, failures': seq<string>)
      requires i < |keys| && Valid() && Queued(order, failures, keys, i)
      requires SettledTo(store.cfg, db0, ctx, pending0, keys, i, w, store.db, failures)
      requires Kept(pending0, pending) && Told(wrote0, wrote, deleted0, deleted, pending0.Keys - pending.Keys)
      modifies this`order, this`pending, this`statCache, this`listCache, this`wrote, this`deleted, store
      ensures Valid() && Queued(order, failures', keys, i + 1)
      ensures |failures'| == |failures| + (if r.Thrown? then 1 else 0)
      ensures SettledTo(store.cfg, db0, ctx, pending0, keys, i + 1, w, store.db, failures')
      ensures Kept(pending0, pending) && Told(wrote0, wrote, deleted0, deleted, pending0.Keys - pending.Keys)
      ensures old(Sound()) ==> Sound() && Logical() == old(Logical())
    {
      hide Sound, Logical, Apply, Flat, Valid, Kept, Told, NoRepeats, Without, Queued, Settle, Landed, LandsIn,
           SettledTo;
      var p := keys[i];
      ValidOrder();
      QueueMoves(order, failures, keys, i);
      OneMoreLanded(pending0, pending, p, wrote0, wrote, deleted0, deleted);
      StillQueued(pending0, pending, order, failures, keys, i);
      SettleNext(store.cfg, db0, ctx, pending0, pending, keys, i, w, store.db, failures);
      r := Flush(p, w);
      failures' := if r.Thrown? then failures + [p] else failures;
    }

    // One error names every path whose bytes did not land.
    method FlushAll(w: Weather) returns (r: Reply<()>)
      requires Valid()
      modifies this`order, this`pending, this`statCache, this`listCache, this`wrote, this`deleted, store
      ensures Valid()
      ensures (store.db, order) == old(Settle(store.cfg, store.db, ctx, pending, order, w))
      ensures r == if pending == map[] then Done(()) else Thrown(NotSaved(order))
      ensures Kept(old(pending), pending)
              && Told(old(wrote), wrote, old(deleted), deleted, old(pending).Keys - pending.Keys)
      ensures old(Sound()) ==> Sound() && Logical() == old(Logical())
      ensures old(Sound()) && r.Done? ==> ViewOf(store.db.entries) == old(Logical())
    {
      hide Sound, Lands, Overlay, ViewOf, Settle, Landed, LandsIn, Kept, Told;
      var failures, why := FlushSettled(w);
      EmptyOrder(order, pending);
      OverlayNothing(ViewOf(store.db.entries));
      if |failures| > 0 { return Thrown(NotSaved(failures)); }
      r := Done(());
    }

    // The ordering flush of an internal verb: only a failure of its own paths is thrown.
    method FlushBefore(own: string -> bool, w: Weather) returns (r: Reply<()>)
      requires Valid()
      modifies this`order, this`pending, this`statCache, this`listCache, this`wrote, this`deleted, store
      ensures Valid()
      ensures r.Done? <==> forall q :: q in pending ==> !own(q)
      ensures (store.db, order) == old(Settle(store.cfg, store.db, ctx, pending, order, w))
      ensures Kept(old(pending), pending)
              && Told(old(wrote), wrote, old(deleted), deleted, old(pending).Keys - pending.Keys)
      ensures old(pending) == map[] ==> unchanged(this) && store.db == old(store.db)
      ensures old(Sound()) ==> Sound() && Logical() == old(Logical())
    {
      hide Sound, Logical, Lands, Settle, Landed, LandsIn, Kept, Told;
      var failures, why := FlushSettled(w);
      var i := 0;
      while i < |failures|
        invariant 0 <= i <= |failures| && forall j :: 0 <= j < i ==> !own(failures[j])
      {
        if own(failures[i]) {
          assert failures[i] in pending;
          return Thrown(why[i]);
        }
        i := i + 1;
      }
      r := Done(());
    }

    // ---- memos ----------------------------------------------------------------------------

    method StatAbs(p: Resolved) returns (r: Reply<Option<Meta>>)
      requires Valid()
      modifies this`statCache
      ensures Valid()
      ensures r.Done? <==> p in old(statCache) || NormalizeFsPath(p).Some?
      ensures r.Thrown? ==> statCache == old(statCache)
      ensures old(Sound()) ==> Sound() && Logical() == old(Logical())
                               && (r.Done? ==> r.value == StatOf(store.db.entries, p))
    {
      hide NormalizeFsPath, WellFormed, Landable, Overlay, ViewOf, NoRepeats, Flat;
      if p in statCache { return Done(statCache[p]); }
      var normal := NormalizeFsPath(p);
      if normal.None? { return Thrown(Refused(EINVAL)); }
      NormalizeResolved(p);
      var meta := StatOf(store.db.entries, normal.value);
      statCache := statCache[p := meta];
      r := Done(meta);
    }

    method ListAbs(p: Resolved) returns (r: Reply<set<Meta>>)
      requires Valid()
      modifies this`statCache, this`listCache
      ensures Valid()
      ensures r.Done? <==> p in old(listCache) || (NormalizeFsPath(p).Some? && IsDir(store.db.entries, p))
      ensures old(Sound()) ==> Sound() && Logical() == old(Logical())
                               && (r.Done? ==> r.value == ListOf(store.db.entries, p))
    {
      hide NormalizeFsPath, WellFormed, Landable, Overlay, ViewOf, NoRepeats, Flat;
      if p in listCache { return Done(listCache[p]); }
      var normal := NormalizeFsPath(p);
      if normal.None? { return Thrown(Refused(EINVAL)); }
      NormalizeResolved(p);
      if p !in store.db.entries { return Thrown(Refused(ENOENT)); }
      if !IsDir(store.db.entries, p) { return Thrown(Refused(ENOTDIR)); }
      var metas := ListOf(store.db.entries, p);
      listCache := listCache[p := metas];
      var rest := metas;
      while rest != {}
        invariant rest <= metas && Valid()
        invariant old(Sound()) ==> Sound()
        decreases rest
      {
        var e :| e in rest;
        statCache := statCache[e.path := Some(e)];
        rest := rest - {e};
      }
      r := Done(metas);
    }

    // ---- reads ------------------------------------------------------------------------------

    // A flush that cannot land never makes an existing file read as missing: the durable bytes are
    // served. Only where there is no row at all does the flush failure surface.
    method ReadFile(rel: Resolved, w: Weather) returns (r: Reply<Bytes>)
      requires Valid()
      modifies this`order, this`pending, this`statCache, this`listCache, this`wrote, this`deleted, store
      ensures Valid() && pending == if old(Lands(Abs(rel), w)) then old(pending) - {Abs(rel)} else old(pending)
      ensures old(Sound()) ==> Sound() && Logical() == old(Logical())
      ensures r.Done? ==> StoreRead(store.db.entries, Abs(rel)) == Ok(r.value)
      ensures r.Thrown? ==> StoreRead(store.db.entries, Abs(rel)).Err?
      ensures r.Thrown? && Abs(rel) in pending ==> r.trouble != Refused(ENOENT)
      ensures old(Sound()) && r.Done? && old(Lands(Abs(rel), w)) ==>
                Abs(rel) in Logical() && Logical()[Abs(rel)] == FileNode(r.value)
    {
      hide NormalizeFsPath, WellFormed, Landable, NoRepeats, Flat, CachesTell, Append, Apply, Without;
      var p := Abs(rel);
      var flushed := Flush(p, w);
      NormalizeResolved(p);
      var read := StoreRead(store.db.entries, p);
      if read.Ok? { return Done(read.value); }
      if flushed.Thrown? && read.error == ENOENT { return Thrown(flushed.trouble); }
      r := Thrown(Refused(read.error));
    }

    method Exists(rel: Resolved) returns (there: bool)
      requires Valid()
      modifies this`statCache
      ensures Valid()
      ensures old(Sound()) ==> Sound() && Logical() == old(Logical())
      ensures old(Sound()) && NormalizeFsPath(Abs(rel)).Some? ==> (there <==> Abs(rel) in Logical())
      ensures NormalizeFsPath(Abs(rel)).None? && Abs(rel) !in pending && Abs(rel) !in old(statCache) ==> !there
    {
      hide NormalizeFsPath, WellFormed, Landable, NoRepeats, Flat, CachesTell;
      var p := Abs(rel);
      OverlayKeys(ViewOf(store.db.entries), pending);
      if p in pending { return true; }
      var meta := StatAbs(p);
      there := meta.Done? && meta.value.Some?;
    }

    // A file stats at its size after the flush to come.
    method Stat(rel: Resolved) returns (r: Reply<FsStat>)
      requires Valid()
      modifies this`statCache
      ensures Valid()
      ensures old(Sound()) ==> Sound() && Logical() == old(Logical())
      ensures old(Sound()) && NormalizeFsPath(Abs(rel)).Some? ==>
                r == if Abs(rel) in Logical() then Done(StatNode(Logical()[Abs(rel)])) else Thrown(Refused(ENOENT))
      ensures r.Thrown? ==> NormalizeFsPath(Abs(rel)).None? || r.trouble == Refused(ENOENT)
    {
      hide NormalizeFsPath, Landable, NoRepeats, Flat, CachesTell, Overlay, IsPath, ParentOf, BaseName, ViewOf,
           WellFormed;
      var p := Abs(rel);
      var got := StatAbs(p);
      if got.Thrown? { return Thrown(got.trouble); }
      var meta := got.value;
      if old(Sound()) { StatFromView(store.db, pending, p); }
      if meta.None? && p !in pending { return Thrown(Refused(ENOENT)); }
      if meta.Some? && meta.value.kind.Dir? { return Done(FsStat(true, meta.value.size)); }
      var size := (if meta.Some? then meta.value.size else 0) + (if p in pending then pending[p].bytes else 0);
      r := Done(FsStat(false, size));
    }

    // Brand-new buffered files are flushed first; one that cannot land is a missing entry.
    method Readdir(rel: Resolved, w: Weather) returns (r: Reply<set<string>>)
      requires Valid()
      modifies this`order, this`pending, this`statCache, this`listCache, this`wrote, this`deleted, store
      ensures Valid() && Kept(old(pending), pending)
      ensures old(Sound()) ==> Sound() && Logical() == old(Logical())
      ensures old(Sound()) && r.Done? ==>
                r.value == Children(Logical().Keys - (pending.Keys - store.db.entries.Keys), Abs(rel))
      ensures old(Sound()) && NormalizeFsPath(Abs(rel)).Some? ==> (r.Done? <==> IsDirNode(Logical(), Abs(rel)))
    {
      hide NormalizeFsPath, Landable, NoRepeats, Flat, Overlay, IsPath, ParentOf, BaseName, ViewOf, WellFormed, ListOf,
           Children, Kept;
      var p := Abs(rel);
      var flushed := FlushBefore(q => false, w);
      var listed := ListAbs(p);
      if old(Sound()) {
        OverlayKeys(ViewOf(store.db.entries), pending);
        ViewKeys(store.db.entries);
        DirNodes(store.db.entries, pending, p);
        ListNames(store.db, p);
        assert Logical().Keys - (pending.Keys - store.db.entries.Keys) == store.db.entries.Keys;
      }
      if listed.Thrown? { return Thrown(listed.trouble); }
      r := Done(set e | e in listed.value :: e.name);
    }

    // ---- writes -----------------------------------------------------------------------------

    // A truncating write supersedes the buffered appends of its path: they are gone even when the
    // write is then refused.
    method WriteFile(rel: Resolved, content: Bytes, w: Weather) returns (r: Reply<()>)
      requires Valid()
      modifies this`order, this`pending, this`statCache, this`listCache, this`wrote, this`deleted, store
      ensures Valid() && pending == old(pending) - {Abs(rel)}
      ensures r.Done? <==> NormalizeFsPath(Abs(rel)).Some?
                           && Write(store.cfg, old(store.db), ctx, Abs(rel), content, None, w.reaper(Abs(rel))).Ok?
      ensures r.Thrown? ==> store.db == old(store.db) && wrote == old(wrote) && deleted == old(deleted)
      ensures r.Done? ==> wrote == old(wrote) + {Abs(rel)} && deleted == old(deleted) - {Abs(rel)}
      ensures old(Sound()) && r.Thrown? ==> Sound()
      ensures old(Sound()) && r.Done? && Clear(ViewOf(old(store.db.entries)), old(pending), ParentOf(Abs(rel))) ==>
                Sound() && Logical() == Written(old(Logical()), Abs(rel), content)
    {
      hide NormalizeFsPath, Landable, NoRepeats, Overlay, IsPath, ParentOf, ViewOf, WellFormed, Write, Clear, Written,
           Flat, CachesTell, StatOf, Without, MetaOf, AddDirs, BaseName;
      var p := Abs(rel);
      WithoutIs(order, p);
      order, pending := Without(order, p), pending - {p};
      NormalizeResolved(p);
      var sent := store.Write(ctx, p, content, None, w.reaper(p));
      if sent.Err? { return Thrown(Refused(sent.error)); }
      OneMemo(store.db.entries, p);
      Rememo(p);
      if old(Sound()) && Clear(ViewOf(old(store.db.entries)), old(pending), ParentOf(p)) {
        WrittenSoundly(store.cfg, old(store.db), ctx, old(pending), p, content, w.reaper(p));
      }
      r := Done(());
    }

    // The >> gate: a path a lock already protects is refused at the redirect, once per mount.
    method AssertAppendable(p: Resolved) returns (r: Reply<()>)
      modifies this`lockProbed
      ensures r.Thrown? <==> p !in old(lockProbed) && NormalizeFsPath(p).Some? && LockedSelfOrAbove(store.db.entries, p)
      ensures r.Thrown? ==> r.trouble == Refused(ELOCKED) && lockProbed == old(lockProbed)
      ensures r.Done? ==> lockProbed == old(lockProbed) + {p}
    {
      hide NormalizeFsPath;
      NormalizeResolved(p);
      if p in lockProbed { return Done(()); }
      if NormalizeFsPath(p).Some? && AssertNotLocked(store.db.entries, p, false).Err? {
        return Thrown(Refused(ELOCKED));
      }
      lockProbed := lockProbed + {p};
      r := Done(());
    }

    method AppendFile(rel: Resolved, chunk: Bytes, w: Weather) returns (r: Reply<()>)
      requires Valid()
      modifies this`order, this`pending, this`lockProbed, this`statCache, this`listCache, this`wrote, this`deleted,
          store
      ensures Valid()
      ensures r.Done? <==> old(Goes(store.cfg, ctx, root, Now(), AppendV(rel, chunk), w))
      ensures !old(Enters(ctx, Now(), Abs(rel))) ==> r.Thrown? && pending == old(pending)
      ensures r.Thrown? && old(Enters(ctx, Now(), Abs(rel))) ==>
                pending == old(pending)[Abs(rel) := Buf(ChunksOf(old(pending), Abs(rel)) + [chunk],
                                                         BytesOf(old(pending), Abs(rel)) + |chunk|)]
      ensures r.Thrown? ==> store.db == old(store.db)
      ensures ctx.readOnly || (Abs(rel) !in old(lockProbed) && NormalizeFsPath(Abs(rel)).Some?
                               && old(LockedSelfOrAbove(store.db.entries, Abs(rel)))) ==>
                r.Thrown? && pending == old(pending) && store.db == old(store.db)
      ensures old(Sound()) && (Landable(old(store.db.entries), Abs(rel)) || Abs(rel) in old(pending)) ==>
                && Sound()
                && (r.Done? ==> Logical() == Appended(old(Logical()), Abs(rel), chunk))
                && (r.Thrown? ==> Logical() == Appended(old(Logical()), Abs(rel), chunk)
                                  || (pending == old(pending) && store.db == old(store.db)))
    {
      hide NormalizeFsPath, Landable, Overlay, ViewOf, WellFormed, LockedSelfOrAbove, LandsIn, Appended, Apply,
           CachesTell, NoRepeats, Flat, Settle, Landed, Removes, Renames, Makes, Append;
      var p := Abs(rel);
      if ctx.readOnly {
        ReadOnlyAppend(store.cfg, store.db, ctx, p, chunk, w.reaper(p));
        var sent := store.Append(ctx, p, chunk, w.reaper(p));
        return Thrown(Refused(if sent.Err? then sent.error else EROFS));
      }
      var gate := AssertAppendable(p);
      if gate.Thrown? { return gate; }
      Enqueue(p, chunk);
      if pending[p].bytes >= APPEND_FLUSH_BYTES {
        r := Flush(p, w);
        return;
      }
      r := Done(());
    }

    // The chunk joins its path's buffer, a new path at the end of the queue.
    method Enqueue(p: Resolved, chunk: Bytes)
      requires Valid()
      modifies this`order, this`pending
      ensures Valid()
      ensures pending == old(pending)[p := Buf(ChunksOf(old(pending), p) + [chunk], BytesOf(old(pending), p) + |chunk|)]
      ensures old(Sound()) && (Landable(store.db.entries, p) || p in old(pending)) ==>
                Sound() && Logical() == Appended(old(Logical()), p, chunk)
    {
      hide NormalizeFsPath, Landable, NoRepeats, Overlay, IsPath, ParentOf, ViewOf, WellFormed, Flat, CachesTell,
           Appended;
      var buf := if p in pending then pending[p] else Buf([], 0);
      FlatPush(buf.chunks, chunk);
      FlatNothing();
      if Sound() && (Landable(store.db.entries, p) || p in pending) {
        LandableResolved(store.db.entries, p);
        NotADirNode(store.db.entries, p);
        BufferIsAppend(ViewOf(store.db.entries), pending, p, Buf(buf.chunks + [chunk], buf.bytes + |chunk|), chunk);
      }
      if p !in pending {
        SnocNoRepeats(order, p);
        order := order + [p];
      }
      buf := Buf(buf.chunks + [chunk], buf.bytes + |chunk|);
      pending := pending[p := buf];
    }

    // mkdir without -p: the path is new, and its parent is there.
    method MayMake(p: Resolved) returns (r: Reply<()>)
      requires Valid() && |p| > 1
      modifies this`statCache
      ensures Valid()
      ensures old(Sound()) ==> Sound() && Logical() == old(Logical())
      ensures old(Sound()) && NormalizeFsPath(p).Some? ==>
                (r.Done? <==> p !in store.db.entries && (p == root || DirName(p) in store.db.entries))
      ensures old(Sound()) && r.Done? ==> p !in store.db.entries && (p != root ==> DirName(p) in store.db.entries)
    {
      hide Sound, Logical, DirName, NormalizeFsPath, Valid;
      var here := StatAbs(p);
      if here.Thrown? { return Thrown(here.trouble); }
      if here.value.Some? { return Thrown(Trouble.Exists); }
      if p != root {
        if NormalizeFsPath(p).Some? { ParentNormalizes(p); }
        var above := StatAbs(DirName(p));
        if above.Thrown? { return Thrown(above.trouble); }
        if above.value.None? { return Thrown(Refused(ENOENT)); }
      }
      r := Done(());
    }

    method Mkdir(rel: Resolved, recursive: bool, w: Weather) returns (r: Reply<()>)
      requires Valid()
      modifies this`order, this`pending, this`statCache, this`listCache, this`wrote, this`deleted, store
      ensures Valid()
      ensures old(Sound()) ==> (r.Done? <==> old(Goes(store.cfg, ctx, root, Now(), MkdirV(rel, recursive), w)))
      ensures old(Sound()) && r.Thrown? ==> Sound() && Logical() == old(Logical())
      ensures old(Sound()) && r.Done? && Clear(ViewOf(old(store.db.entries)), old(pending), ParentOf(Abs(rel))) ==>
                Sound() && Logical() == AddDirs(old(Logical()), Abs(rel))
      ensures old(Sound()) && r.Done? && !recursive ==> Abs(rel) !in old(Logical())
    {
      hide Sound, Logical, NormalizeFsPath, NoRepeats, Flat, Clear, AddDirs, DirName, ParentOf, LandsIn, Apply,
           FsDb.Mkdir, ViewOf, WellFormed;
      var p := Abs(rel);
      var flushed := Flush(p, w);
      if flushed.Thrown? { return flushed; }
      if !recursive {
        var may := MayMake(p);
        if may.Thrown? { return may; }
        assert old(Sound()) ==> p !in old(Logical()) by { LogicalKeys(); }
      }
      r := Make(p, old(store.db.entries), old(pending), old(Sound()));
    }

    lemma LogicalKeys()
      ensures Logical().Keys == store.db.entries.Keys + pending.Keys
    {
      OverlayKeys(ViewOf(store.db.entries), pending);
      ViewKeys(store.db.entries);
    }

    // The store's mkdir -p once p itself is flushed.
    method Make(p: Resolved, ghost entries0: map<string, Row>, ghost pending0: Pending, ghost sound: bool)
      returns (r: Reply<()>)
      requires Valid() && |p| > 1 && pending == pending0 - {p}
      requires sound ==> Sound() && entries0.Keys <= store.db.entries.Keys
      modifies this`statCache, this`listCache, this`wrote, this`deleted, store
      ensures Valid()
      ensures r.Done? <==> old(Makes(store.db, ctx, p))
      ensures r.Thrown? ==> store.db == old(store.db) && statCache == old(statCache) && listCache == old(listCache)
      ensures sound && r.Thrown? ==> Sound() && Logical() == old(Logical())
      ensures sound && r.Done? && Clear(ViewOf(entries0), pending0, ParentOf(p)) ==>
                Sound() && Logical() == AddDirs(old(Logical()), p)
    {
      hide NormalizeFsPath, NoRepeats, Flat, Clear, AddDirs, ParentOf, FsDb.Mkdir, ViewOf, WellFormed, CachesTell,
           Overlay, Landable, IsPath;
      NormalizeResolved(p);
      var made := store.Mkdir(ctx, p);
      if made.Err? { return Thrown(Refused(made.error)); }
      InvalidateAll();
      OneMemo(store.db.entries, p);
      RecordWrite(p);
      r := Done(());
      if sound && Clear(ViewOf(entries0), pending0, ParentOf(p)) {
        forall q | q in pending ensures IsPath(q) && q != "/" { LandableIsPath(old(store.db.entries), q); }
        ClearAfterFlush(entries0, old(store.db.entries), pending0, pending, p);
        MadeSoundly(old(store.db), ctx, pending, p);
      }
    }

    // Earlier appends land, then die with the rm; a failure elsewhere in the tree is not the rm's.
    method Rm(rel: Resolved, recursive: bool, force: bool, w: Weather) returns (r: Reply<()>)
      requires Valid()
      modifies this`order, this`pending, this`statCache, this`listCache, this`wrote, this`deleted, this`unrecoverable,
          store
      ensures Valid() && Kept(old(pending), pending)
      ensures r.Done? ==> forall q :: q in pending ==> !(q == Abs(rel) || (recursive && Under(q, Abs(rel))))
      ensures r.Done? <==> old(Goes(store.cfg, ctx, root, Now(), RmV(rel, recursive, force), w))
      ensures old(Sound()) && r.Thrown? ==> Sound() && Logical() == old(Logical())
      ensures old(Sound()) && r.Done? ==> Logical() == Removed(old(Logical()), Abs(rel), recursive)
      ensures old(Sound()) && r.Done? && (forall q :: q in pending ==> ParentOf(q) != Abs(rel)) ==> Sound()
      ensures old(Sound()) && r.Done? && !force ==> Abs(rel) in old(Logical())
    {
      hide Sound, Logical, NormalizeFsPath, NoRepeats, Flat, ParentOf, Apply, FsDb.Rm, ViewOf, WellFormed, Kept, Told,
           Removed, Under, Settle, Landed, Removes, Makes, Renames;
      var p := Abs(rel);
      var flushed := FlushBefore(q => q == p || (recursive && Under(q, p)), w);
      if flushed.Thrown? { return flushed; }
      r := Remove(p, recursive, force, w);
    }

    method Remove(p: Resolved, recursive: bool, force: bool, w: Weather) returns (r: Reply<()>)
      requires Valid() && |p| > 1 && forall q :: q in pending ==> !(q == p || (recursive && Under(q, p)))
      modifies this`statCache, this`listCache, this`wrote, this`deleted, this`unrecoverable, store
      ensures Valid()
      ensures r.Done? <==> old(Removes(store.cfg, store.db, ctx, p, recursive, force, w.reaper(p)))
      ensures old(Sound()) && r.Thrown? ==> Sound() && Logical() == old(Logical())
      ensures old(Sound()) && r.Done? ==> Logical() == Removed(old(Logical()), p, recursive)
      ensures old(Sound()) && r.Done? && (forall q :: q in pending ==> ParentOf(q) != p) ==> Sound()
      ensures old(Sound()) && r.Done? && !force ==> p in old(Logical())
    {
      hide NormalizeFsPath, NoRepeats, Flat, ParentOf, FsDb.Rm, ViewOf, WellFormed, Removed, Under, CachesTell, Overlay,
           Landable, IsPath, StatOf, Without, Settle, Landed, Renames, Makes, Goes;
      LogicalKeys();
      NormalizeResolved(p);
      var gone := store.Rm(ctx, p, recursive, w.reaper(p));
      if old(Sound()) {
        RemovedSoundly(store.cfg, old(store.db), ctx, pending, p, recursive, w.reaper(p));
        OneMemo(store.db.entries, p);
      }
      if gone.Ok? {
        RecordDelete(p);
        unrecoverable := unrecoverable + gone.value.1;
      } else if !(force && gone.error == ENOENT) {
        return Thrown(Refused(gone.error));
      }
      InvalidateAll();
      r := Done(());
    }

    method Mv(src: Resolved, dest: Resolved, w: Weather) returns (r: Reply<()>)
      requires Valid()
      modifies this`order, this`pending, this`statCache, this`listCache, this`wrote, this`deleted, store
      ensures Valid() && Kept(old(pending), pending)
      ensures r.Done? ==> forall q :: q in pending ==> !AtOrUnder(q, Abs(src)) && q != Abs(dest)
      ensures r.Done? <==> old(Goes(store.cfg, ctx, root, Now(), MvV(src, dest), w))
      ensures old(Sound()) && r.Thrown? ==> Sound() && Logical() == old(Logical())
      ensures old(Sound()) && r.Done? && NoneAbove(pending, ParentOf(Abs(dest))) ==>
                Sound() && Logical() == Renamed(old(Logical()), Abs(src), Abs(dest))
    {
      hide Sound, Logical, NormalizeFsPath, NoRepeats, Flat, ParentOf, Apply, FsDb.Rename, ViewOf, WellFormed, Kept,
           Told, Renamed, Under, NoneAbove, Clear, Settle, Landed, Removes, Makes, Renames;
      var f, t := Abs(src), Abs(dest);
      var flushed := FlushBefore(q => q == f || q == t || Under(q, f), w);
      if flushed.Thrown? { return flushed; }
      NoneAboveIsClear(ViewOf(store.db.entries), pending, ParentOf(t));
      r := Move(f, t, w);
    }

    method Move(f: Resolved, t: Resolved, w: Weather) returns (r: Reply<()>)
      requires Valid() && |f| > 1 && |t| > 1 && forall q :: q in pending ==> !AtOrUnder(q, f) && q != t
      modifies this`statCache, this`listCache, this`wrote, this`deleted, store
      ensures Valid()
      ensures r.Done? <==> old(Renames(store.cfg, store.db, ctx, f, t, w.reaper(t)))
      ensures old(Sound()) && r.Thrown? ==> Sound() && Logical() == old(Logical())
      ensures old(Sound()) && r.Done? && Clear(ViewOf(old(store.db.entries)), pending, ParentOf(t)) ==>
                Sound() && Logical() == Renamed(old(Logical()), f, t)
    {
      hide NormalizeFsPath, NoRepeats, Flat, ParentOf, FsDb.Rename, ViewOf, WellFormed, Renamed, Under, CachesTell,
           Overlay, Landable, IsPath, Clear;
      NormalizeResolved(f);
      NormalizeResolved(t);
      var moved := store.Rename(ctx, f, t, w.reaper(t));
      if moved.Err? { return Thrown(Refused(moved.error)); }
      InvalidateAll();
      OneMemo(store.db.entries, t);
      RecordDelete(f);
      RecordWrite(t);
      if old(Sound()) && Clear(ViewOf(old(store.db.entries)), pending, ParentOf(t)) {
        MovedSoundly(store.cfg, old(store.db), ctx, pending, f, t, w.reaper(t));
      }
      r := Done(());
    }

    // ---- a script -----------------------------------------------------------------------------

    // One verb that asks. A read whose own flush could not land is answered from the durable rows,
    // and a listing leaves out a new file that could not land: such an answer is not `exact`.
    method Ask(verb: Verb, w: Weather) returns (deed: Deed)
      requires Valid() && (verb.ReadV? || verb.StatV? || verb.ListV?)
      modifies this`order, this`pending, this`statCache, this`listCache, this`wrote, this`deleted, store
      ensures Valid() && deed.took && deed.clean
      ensures deed.exact == match verb
                            case ReadV(rel) => Abs(rel) !in pending
                            case ListV(rel) => pending.Keys <= store.db.entries.Keys
                            case _ => true
      ensures old(Sound()) ==>
                && Sound() && Logical() == old(Logical())
                && (deed.exact && NormalizeFsPath(Abs(verb.rel)).Some? ==>
                    Right(root, old(Logical()), verb, deed.reply))
    {
      hide NormalizeFsPath, Sound, Logical, Lands, StoreRead, Children, ViewOf, Overlay, Kept, Valid;
      match verb
      case ReadV(rel) =>
        var r := ReadFile(rel, w);
        deed := Deed(if r.Done? then Done(Bytes(r.value)) else Thrown(r.trouble), true, Abs(rel) !in pending, true);
        ReadIsRight(rel);
      case StatV(rel) =>
        var r := Stat(rel);
        deed := Deed(if r.Done? then Done(Node(r.value)) else Thrown(r.trouble), true, true, true);
      case ListV(rel) =>
        var r := Readdir(rel, w);
        deed := Deed(if r.Done? then Done(Names(r.value)) else Thrown(r.trouble), true,
                     pending.Keys <= store.db.entries.Keys, true);
        ListIsRight(rel);
    }

    lemma ReadIsRight(rel: Resolved)
      ensures Sound() && NormalizeFsPath(Abs(rel)).Some? && Abs(rel) !in pending ==>
                var p := Abs(rel);
                && (StoreRead(store.db.entries, p).Ok? <==> p in Logical() && Logical()[p].FileNode?)
                && (StoreRead(store.db.entries, p).Ok? ==>
                      Logical()[p] == FileNode(StoreRead(store.db.entries, p).value))
    {
      hide NormalizeFsPath, WellFormed, Landable, NoRepeats, Flat, CachesTell;
    }

    lemma ListIsRight(rel: Resolved)
      ensures pending.Keys <= store.db.entries.Keys ==>
                Logical().Keys - (pending.Keys - store.db.entries.Keys) == Logical().Keys
    {
      hide Overlay, ViewOf;
    }

    // One verb that changes.
    method Change(verb: Verb, w: Weather) returns (deed: Deed)
      requires Valid() && !verb.ReadV? && !verb.StatV? && !verb.ListV?
      modifies this, store
      ensures Valid() && deed.exact && (deed.reply.Done? ==> deed.reply.value.Changed?)
      ensures old(Sound()) || !verb.MkdirV? ==>
                (deed.reply.Done? <==> old(Goes(store.cfg, ctx, root, Now(), verb, w)))
      ensures deed.took <==> deed.reply.Done? || (verb.AppendV? && old(Enters(ctx, Now(), Abs(verb.rel))))
      ensures deed.clean == Clean(root, old(pending), verb, deed.took, pending)
      ensures old(Sound()) && deed.clean && Fits(root, old(Logical()), verb) ==>
                Sound() && Logical() == if deed.took then Direct(root, old(Logical()), verb) else old(Logical())
    {
      hide Sound, ViewOf, Overlay, AddDirs, Clear, NormalizeFsPath, Landable, ParentOf, IsPath, Kept, Written, Removed,
           Logical, Renamed, Appended, WellFormed, Under, Lands, LandsIn, FsDb.Mkdir, Write, Flat, LockedSelfOrAbove,
           Valid, Fits, Settle, Landed, Removes, Renames, Makes;
      DirNodesHere();
      if Fits(root, Logical(), verb) { FitsHere(verb); }
      var before := pending;
      var r;
      match verb {
        case AppendV(rel, chunk) =>
          r := AppendFile(rel, chunk, w);
          Lengthened(before, Abs(rel), chunk);
          deed := DeedOf(r, r.Done? || pending != before, true);
        case WriteV(rel, bytes) =>
          r := WriteFile(rel, bytes, w);
          deed := DeedOf(r, r.Done?, Clean(root, before, verb, r.Done?, pending));
          SameWithout(before, Abs(rel));
        case MkdirV(rel, recursive) =>
          r := Mkdir(rel, recursive, w);
          deed := DeedOf(r, r.Done?, true);
        case RmV(rel, recursive, force) =>
          r := Rm(rel, recursive, force, w);
          deed := DeedOf(r, r.Done?, Clean(root, before, verb, r.Done?, pending));
        case MvV(src, dest) =>
          r := Mv(src, dest, w);
          deed := DeedOf(r, r.Done?, Clean(root, before, verb, r.Done?, pending));
      }
      DirNodesHere();
    }

    lemma Lengthened(before: Pending, p: string, chunk: Bytes)
      ensures before[p := Buf(ChunksOf(before, p) + [chunk], BytesOf(before, p) + |chunk|)] != before
    {
      var now := before[p := Buf(ChunksOf(before, p) + [chunk], BytesOf(before, p) + |chunk|)];
      assert |now[p].chunks| == |ChunksOf(before, p)| + 1;
    }

    lemma SameWithout(before: Pending, p: string)
      ensures p !in before ==> before - {p} == before
    {
    }

    method Do(verb: Verb, w: Weather) returns (deed: Deed)
      requires Valid()
      modifies this, store
      ensures Valid() && Did(store.cfg, ctx, root, old(Now()), verb, w, deed, Now())
    {
      hide Sound, Logical, Fits, NormalizeFsPath, Valid, Goes, Enters, Direct, Clean, Overlay, ViewOf;
      DirNodesHere();
      if verb.ReadV? || verb.StatV? || verb.ListV? {
        deed := Ask(verb, w);
        AskIsClean(old(pending), verb);
        AskKeeps(ViewIn(old(Now())), verb);
      } else {
        deed := Change(verb, w);
      }
      DirNodesHere();
    }

    lemma AskIsClean(before: Pending, verb: Verb)
      requires verb.ReadV? || verb.StatV? || verb.ListV?
      ensures Clean(root, before, verb, true, pending)
    {
    }

    lemma AskKeeps(v: View, verb: Verb)
      requires verb.ReadV? || verb.StatV? || verb.ListV?
      ensures Direct(root, v, verb) == v
    {
    }

    // Logical() is an overlay of the store's rows, spelled out for callers that hide both.
    lemma DirNodesHere()
      ensures Logical() == Overlay(ViewOf(store.db.entries), pending)
      ensures Sound() ==> Valid()
    {
    }

    lemma FitsHere(verb: Verb)
      requires Fits(root, Logical(), verb)
      ensures verb.AppendV? ==> Landable(store.db.entries, Abs(verb.rel))
      ensures verb.WriteV? || verb.MkdirV? ==> Clear(ViewOf(store.db.entries), pending, ParentOf(Abs(verb.rel)))
    {
      hide IsPath, ParentOf, Flat, Under;
      match verb
      case AppendV(rel, _) =>
        DirNodes(store.db.entries, pending, ParentOf(Abs(rel)));
        DirNodes(store.db.entries, pending, Abs(rel));
      case WriteV(rel, _) => ClearByView(ViewOf(store.db.entries), pending, ParentOf(Abs(rel)));
      case MkdirV(rel, _) => ClearByView(ViewOf(store.db.entries), pending, ParentOf(Abs(rel)));
      case _ =>
    }

    // A whole script, refusals and all, then the flush that ends it: verb by verb each does what Did
    // says. Buffered, memoised and flushed in whatever order, the mount then shows exactly what the
    // unbuffered file system would hold after the verbs that took effect, every exact answer on the
    // way was that file system's, and the store holds it too unless the last flush names what is left.
    method Script(verbs: seq<Verb>, weather: nat -> Weather)
      returns (deeds: seq<Deed>, last: Reply<()>, ghost mounts: seq<Mount>)
      requires Sound() && pending == map[]
      modifies this, store
      ensures Valid() && |deeds| == |verbs| && |mounts| == |deeds| + 1 && mounts[0] == old(Now())
      ensures forall i :: 0 <= i < |deeds| ==>
                Did(store.cfg, ctx, root, mounts[i], verbs[i], weather(i), deeds[i], mounts[i + 1])
      ensures Refines(root, old(ViewOf(store.db.entries)), verbs, deeds, mounts)
      ensures (store.db, order) == FinalFlush(store.cfg, ctx, mounts[|deeds|], weather(|verbs|))
      ensures last == if pending == map[] then Done(()) else Thrown(NotSaved(order))
      ensures mounts[|deeds|].sound ==> Sound() && Logical() == ViewIn(mounts[|deeds|])
      ensures mounts[|deeds|].sound && last.Done? ==> ViewOf(store.db.entries) == ViewIn(mounts[|deeds|])
    {
      hide Sound, Direct, ViewOf, Overlay, Valid, Logical, Did, Refines, Settle;
      OverlayNothing(ViewOf(store.db.entries));
      DirNodesHere();
      ghost var v0 := ViewOf(store.db.entries);
      deeds, mounts := [], [Now()];
      NoDeeds(root, v0, Now());
      assert verbs[..0] == [];
      var i := 0;
      while i < |verbs|
        invariant 0 <= i == |deeds| <= |verbs| && |mounts| == i + 1 && Valid()
        invariant mounts[0] == old(Now()) && mounts[i] == Now()
        invariant forall j :: 0 <= j < i ==>
                    Did(store.cfg, ctx, root, mounts[j], verbs[j], weather(j), deeds[j], mounts[j + 1])
        invariant Refines(root, v0, verbs[..i], deeds, mounts)
      {
        assert verbs[..i + 1] == verbs[..i] + [verbs[i]];
        var deed := Do(verbs[i], weather(i));
        OneMoreRefines(root, v0, verbs[..i], deeds, mounts, store.cfg, ctx, verbs[i], weather(i), deed, Now());
        deeds, mounts := deeds + [deed], mounts + [Now()];
        i := i + 1;
      }
      assert verbs[..i] == verbs;
      DirNodesHere();
      last := FlushAll(weather(i));
    }
  }

  // What the flush that ends a script makes of the store, and the paths it leaves buffered.
  ghost function FinalFlush(cfg: Config, ctx: Ctx, m: Mount, w: Weather): (Db, seq<string>) {
    Settle(cfg, m.db, ctx, m.pending, m.order, w)
  }

  // What is Clear above p before its flush is Clear at p after it.
  lemma ClearAfterFlush(before: map<string, Row>, after: map<string, Row>, pending: Pending, left: Pending, p: string)
    requires IsPath(p) && p != "/" && left == pending - {p} && Clear(ViewOf(before), pending, ParentOf(p))
    requires forall q :: q in before ==> q in after
    requires forall q :: q in left ==> IsPath(q) && q != "/"
    ensures Clear(ViewOf(after), left, p)
  {
    hide IsPath, ParentOf, BaseName, Under;
    forall q | q in left && q !in after ensures !AtOrUnder(p, q) {
      if AtOrUnder(p, q) { ParentUnder(p, q); }
    }
  }

  lemma MadeSoundly(db: Db, ctx: Ctx, pending: Pending, p: string)
    requires WellFormed(db) && IsPath(p) && FsDb.Mkdir(db, ctx, p).Ok? && Clear(ViewOf(db.entries), pending, p)
    requires forall q :: q in pending ==> Landable(db.entries, q)
    ensures var after := FsDb.Mkdir(db, ctx, p).value.entries;
            && (forall q :: q in pending ==> Landable(after, q))
            && Overlay(ViewOf(after), pending) == AddDirs(Overlay(ViewOf(db.entries), pending), p)
  {
    hide Landable, IsPath, ParentOf, FsDb.Mkdir, Overlay, WellFormed, AddDirs, Clear;
    var after := FsDb.Mkdir(db, ctx, p).value.entries;
    MkdirView(db, ctx, p);
    OverlayAddDirs(ViewOf(db.entries), pending, p);
    forall q | q in pending ensures Landable(after, q) {
      LandableInView(db.entries, q);
      LandableInView(after, q);
      AddedStaysLandable(ViewOf(db.entries), pending, p, q);
    }
  }

  // An rm's effect on what is left in the buffer; one that finds nothing removes nothing.
  lemma RemovedSoundly(cfg: Config, db: Db, ctx: Ctx, pending: Pending, p: string, recursive: bool, reaper: Reaper)
    requires WellFormed(db) && forall q :: q in pending ==> Landable(db.entries, q)
    requires forall q :: q in pending ==> !(q == p || (recursive && Under(q, p)))
    ensures FsDb.Rm(cfg, db, ctx, p, recursive, reaper).Ok? ==>
              var after := FsDb.Rm(cfg, db, ctx, p, recursive, reaper).value.db.entries;
              && p in db.entries
              && Overlay(ViewOf(after), pending) == Removed(Overlay(ViewOf(db.entries), pending), p, recursive)
              && ((forall q :: q in pending ==> ParentOf(q) != p) ==> forall q :: q in pending ==> Landable(after, q))
    ensures FsDb.Rm(cfg, db, ctx, p, recursive, reaper) == Err(ENOENT) && IsPath(p) && p != "/" ==>
              Removed(Overlay(ViewOf(db.entries), pending), p, recursive) == Overlay(ViewOf(db.entries), pending)
  {
    hide Landable, IsPath, ParentOf, BaseName, FsDb.Rm, Overlay, WellFormed, Under, Removed;
    RmFinding(cfg, db, ctx, p, recursive, reaper);
    if FsDb.Rm(cfg, db, ctx, p, recursive, reaper).Ok? {
      RmView(cfg, db, ctx, p, recursive, reaper);
      OverlayRemoved(ViewOf(db.entries), pending, p, recursive);
      if forall q :: q in pending ==> ParentOf(q) != p {
        forall q | q in pending
          ensures Landable(FsDb.Rm(cfg, db, ctx, p, recursive, reaper).value.db.entries, q)
        {
          LandableInView(db.entries, q);
          LandableInView(FsDb.Rm(cfg, db, ctx, p, recursive, reaper).value.db.entries, q);
          RemovedStaysLandable(ViewOf(db.entries), p, recursive, q);
        }
      }
    } else if IsPath(p) && p != "/" && p !in db.entries {
      NothingToRemove(db, pending, p, recursive);
    }
  }

  lemma RmFinding(cfg: Config, db: Db, ctx: Ctx, p: string, recursive: bool, reaper: Reaper)
    ensures FsDb.Rm(cfg, db, ctx, p, recursive, reaper).Ok? ==> p in db.entries
    ensures FsDb.Rm(cfg, db, ctx, p, recursive, reaper) == Err(ENOENT) ==> p !in db.entries
  {
    hide HasChild, Total, SnapshotRemoved, LockedSelfOrAbove, LockedBelow;
  }

  lemma RemovedStaysLandable(v: View, p: string, recursive: bool, q: string)
    requires IsPath(q) && q != "/" && ParentOf(q) != p && !(q == p || (recursive && Under(q, p)))
    requires IsDirNode(v, ParentOf(q)) && !IsDirNode(v, q)
    ensures IsDirNode(Removed(v, p, recursive), ParentOf(q)) && !IsDirNode(Removed(v, p, recursive), q)
  {
    hide IsPath, ParentOf, BaseName, Under;
    PathParts(q);
    if Under(ParentOf(q), p) {
      if ParentOf(q) != "/" { UnderTransitive(q, ParentOf(q), p); } else { UnderAt("/", p); EmptyAbove(q); }
    }
  }

  lemma EmptyAbove(q: string)
    requires IsPath(q) && q != "/"
    ensures Under(q, "")
  {
  }

  lemma NothingToRemove(db: Db, pending: Pending, p: string, recursive: bool)
    requires WellFormed(db) && IsPath(p) && p != "/" && p !in db.entries
    requires forall q :: q in pending ==> !(q == p || (recursive && Under(q, p)))
    ensures Removed(Overlay(ViewOf(db.entries), pending), p, recursive) == Overlay(ViewOf(db.entries), pending)
  {
    hide IsPath, Under, Flat, Tree;
    NothingBelow(db.entries, p);
    var v := Overlay(ViewOf(db.entries), pending);
    OverlayKeys(ViewOf(db.entries), pending);
    assert forall q :: q in v ==> !(q == p || (recursive && Under(q, p)));
  }

  lemma MovedSoundly(cfg: Config, db: Db, ctx: Ctx, pending: Pending, f: string, t: string, reaper: Reaper)
    requires WellFormed(db) && IsPath(f) && IsPath(t) && f != "/" && t != "/"
    requires FsDb.Rename(cfg, db, ctx, f, t, reaper).Ok?
    requires forall q :: q in pending ==> Landable(db.entries, q)
    requires forall q :: q in pending ==> !AtOrUnder(q, f) && q != t
    requires Clear(ViewOf(db.entries), pending, ParentOf(t))
    ensures var after := FsDb.Rename(cfg, db, ctx, f, t, reaper).value.entries;
            && (forall q :: q in pending ==> Landable(after, q))
            && Overlay(ViewOf(after), pending) == Renamed(Overlay(ViewOf(db.entries), pending), f, t)
  {
    hide Landable, IsPath, ParentOf, FsDb.Rename, Overlay, WellFormed, Under, Clear, Renamed, AddDirs, Shifted;
    var v := ViewOf(db.entries);
    if f == t {
      SameRename(cfg, db, ctx, f, reaper);
      SameRenamed(Overlay(v, pending), f);
    } else {
      RenameView(cfg, db, ctx, f, t, reaper);
      RenameLeavesNothingBelow(cfg, db, ctx, f, t, reaper);
      forall q | q in v ensures IsPath(q) { DbPath(db, q); }
      forall q | q in pending ensures !AtOrUnder(q, t) { NotPendingBelow(db, t, q); }
      OverlayRenamed(v, pending, f, t);
      forall q | q in pending ensures Landable(FsDb.Rename(cfg, db, ctx, f, t, reaper).value.entries, q) {
        LandableInView(db.entries, q);
        LandableInView(FsDb.Rename(cfg, db, ctx, f, t, reaper).value.entries, q);
        RenamedStaysLandable(v, pending, f, t, q);
      }
    }
  }

  lemma SameRenamed(v: View, f: string)
    ensures Renamed(v, f, f) == v
  {
  }

  lemma DbPath(db: Db, q: string)
    requires WellFormed(db) && q in db.entries
    ensures IsPath(q)
  {
    TreeRow(db.entries, q);
  }

  // A rename that goes through had nothing below its target.
  lemma RenameLeavesNothingBelow(cfg: Config, db: Db, ctx: Ctx, f: string, t: string, reaper: Reaper)
    requires WellFormed(db) && IsPath(t) && t != "/" && f != t && FsDb.Rename(cfg, db, ctx, f, t, reaper).Ok?
    ensures !IsDir(db.entries, t) && forall q :: q in db.entries ==> !Under(q, t)
  {
    hide IsPath, Under, FsDb.Rename, ParentOf, MkdirChain, Tree, AfterMove;
    RenameShape(cfg, db, ctx, f, t, reaper);
    NothingBelow(db.entries, t);
  }

  lemma NotPendingBelow(db: Db, t: string, q: string)
    requires Landable(db.entries, q) && IsPath(t) && t != "/" && q != t
    requires !IsDir(db.entries, t) && forall x :: x in db.entries ==> !Under(x, t)
    ensures !AtOrUnder(q, t)
  {
    hide IsPath, ParentOf, Under;
    if Under(q, t) { ParentUnder(q, t); }
  }

  lemma RenamedStaysLandable(v: View, pending: Pending, f: string, t: string, q: string)
    requires IsPath(f) && IsPath(t) && f != "/" && t != "/" && f != t
    requires forall x :: x in v ==> IsPath(x) && !Under(x, t)
    requires q in pending && IsPath(q) && q != "/" && !AtOrUnder(q, f) && !AtOrUnder(q, t) && t !in pending
    requires Clear(v, pending, ParentOf(t)) && !IsDirNode(v, t)
    requires IsDirNode(v, ParentOf(q)) && !IsDirNode(v, q)
    ensures IsDirNode(Renamed(v, f, t), ParentOf(q)) && !IsDirNode(Renamed(v, f, t), q)
  {
    hide IsPath, ParentOf, BaseName, Under, Clear, AddDirs, Shifted, Overlay;
    var rest := v - {t};
    PathParts(t);
    ClearWithout(v, pending, ParentOf(t), t);
    AddedStaysLandable(rest, pending, ParentOf(t), q);
    AddDirsPaths(rest, ParentOf(t));
    OverlayAddDirs(rest, pending, ParentOf(t));
    var u := AddDirs(rest, ParentOf(t));
    forall x | x in u ensures !AtOrUnder(x, t) {
      if x !in rest { NotBelowItself(t, x); }
    }
    ShiftedStaysLandable(u, f, t, q);
  }

  lemma NotBelowItself(t: string, x: string)
    requires IsPath(t) && t != "/" && AtOrUnder(ParentOf(t), x)
    ensures !AtOrUnder(x, t)
  {
    hide IsPath, ParentOf, BaseName;
    PathParts(t);
    UnderLength(ParentOf(t), x);
    if AtOrUnder(x, t) { UnderLength(x, t); }
  }

  // No leftover at or above d.
  predicate NoneAbove(pending: Pending, d: string) {
    forall q | q in pending :: !AtOrUnder(d, q)
  }

  lemma NoneAboveIsClear(v: View, pending: Pending, d: string)
    ensures NoneAbove(pending, d) ==> Clear(v, pending, d)
  {
    hide Under;
  }

  lemma ClearByView(v: View, pending: Pending, d: string)
    requires NoFileAbove(Overlay(v, pending), d)
    ensures Clear(v, pending, d)
  {
    hide Flat, Under;
    forall q | q in pending && q !in v ensures !AtOrUnder(d, q) { assert Overlay(v, pending)[q].FileNode?; }
  }

  lemma NothingAbove(pending: Pending, p: string)
    ensures pending == map[] ==> NoneAbove(pending, ParentOf(p))
  {
  }

  // ---- the memos and parents made by a flush -------------------------------------------------------

  // A flush that has to make parents first leaves the memos true exactly when none of them was
  // stat'ed, nor the directory it appears in listed.
  lemma MemosAfterFlushIff(before: map<string, Row>, after: map<string, Row>, p: string,
                           stats: map<string, Option<Meta>>, lists: map<string, set<Meta>>)
    requires Tree(before) && Tree(after) && OnlyAround(before, after, p) && IsPath(p) && p != "/" && IsFile(after, p)
    requires !IsDir(before, p) && CachesTell(before, stats, lists)
    ensures CachesTell(after, stats - {p}, lists - {p, DirName(p)}) <==>
              forall d :: d in after && d !in before && d != p ==>
                d !in stats && ParentOf(d) !in lists - {p, DirName(p)}
  {
    hide IsPath, ParentOf, BaseName, Tree, RowOk, Under, DirName, Trim;
    DirNameOfPath(p);
    var stats1, lists1 := stats - {p}, lists - {p, DirName(p)};
    forall q | q in after ensures after[q].parent == ParentOf(q) { TreeParent(after, q); }
    forall q | q in before ensures before[q].parent == ParentOf(q) { TreeParent(before, q); }
    if forall d :: d in after && d !in before && d != p ==> d !in stats && ParentOf(d) !in lists1 {
      forall d | d in lists1 ensures ListOf(after, d) == ListOf(before, d) {
        assert forall q :: q in after && after[q].parent == d <==> q in before && before[q].parent == d;
      }
    } else {
      var d :| d in after && d !in before && d != p && !(d !in stats && ParentOf(d) !in lists1);
      if d in stats {
        assert d in stats1 && stats1[d] == None && StatOf(after, d).Some?;
      } else {
        var e := ParentOf(d);
        assert MetaOf(d, after[d]) in ListOf(after, e);
        assert MetaOf(d, after[d]) !in ListOf(before, e);
        assert e in lists1 && lists1[e] == ListOf(before, e);
      }
    }
  }

  lemma SharedNames()
    ensures ParentOf("/shared") == "/" && ParentOf("/shared/a") == "/shared" && ParentOf("/shared/a/b") == "/shared/a"
    ensures IsPath("/shared") && IsPath("/shared/a") && IsPath("/shared/a/b") && !FixedRoot("/shared/a")
  {
    LastSlashIs("/shared", 0);
    LastSlashIs("/shared/a", 7);
    LastSlashIs("/shared/a/b", 9);
    assert "/shared/a"[..7] == "/shared" && "/shared/a/b"[..9] == "/shared/a";
    assert "/shared/a"[1] == 's';
  }

  function Seeded(): Db {
    Db(map["/" := Row("", "", Dir, [], 0, None, None), "/shared" := DirRow("/shared")], map[], map[], 0)
  }

  lemma SeededIsWellFormed()
    ensures WellFormed(Seeded())
  {
    hide IsPath, BaseName, ParentOf;
    RootNames();
    SharedNames();
    var e := Seeded().entries;
    assert RowOk(e, "/") && RowOk(e, "/shared");
    TotalRemove(e, "/");
    TotalRemove(e - {"/"}, "/shared");
    assert e - {"/"} - {"/shared"} == map[];
  }

  lemma RootNames()
    ensures IsPath("/") && ParentOf("/") == "" && BaseName("/") == ""
  {
    LastSlashIs("/", 0);
  }

  // Such a flush: a stat says /shared has no a, an append to /shared/a/b lands, and it still says so.
  lemma StaleAfterFlush(cfg: Config, bytes: Bytes) returns (after: Db)
    requires |bytes| <= MAX_FILE_BYTES && |bytes| <= cfg.quota
    ensures WellFormed(Seeded()) && Extend(cfg, Seeded(), "/shared/a/b", bytes) == Ok(after)
    ensures var stats := map["/shared/a" := None];
            CachesTell(Seeded().entries, stats, map[]) && !CachesTell(after.entries, stats - {"/shared/a/b"}, map[])
  {
    hide BaseName, IsPath, ParentOf, FixedRoot, WellFormed;
    SeededIsWellFormed();
    var more := SharedChain();
    SharedNames();
    var p := "/shared/a/b";
    var put := more[p := FileRow(p, bytes, cfg.mimeFromPath(p))];
    assert IsDir(more, "/shared/a") && p !in more;
    assert PutFile(more, p, bytes, cfg.mimeFromPath(p), false) == Ok(put);
    after := Seeded().(entries := put, usage := |bytes|);
    assert Extend(cfg, Seeded(), p, bytes) == Ok(after);
    StaleMemo(after.entries, "/shared/a", p);
    assert StatOf(Seeded().entries, "/shared/a") == None;
  }

  lemma StaleMemo(entries: map<string, Row>, d: string, p: string)
    requires d in entries && d != p
    ensures !CachesTell(entries, map[d := None] - {p}, map[])
  {
    var stats: map<string, Option<Meta>> := map[d := None] - {p};
    assert d in stats && stats[d] == None && StatOf(entries, d).Some?;
  }

  lemma SharedChain() returns (more: map<string, Row>)
    ensures more == Seeded().entries["/shared/a" := DirRow("/shared/a")]
    ensures MkdirChain(Seeded().entries, ParentOf("/shared/a/b")) == Ok(more)
  {
    hide BaseName, IsPath, ParentOf, FixedRoot;
    SharedNames();
    var e := Seeded().entries;
    ChainOfFixed(e, "/shared");
    assert MkdirChain(e, "/shared/a") == Ok(e["/shared/a" := DirRow("/shared/a")]);
    more := e["/shared/a" := DirRow("/shared/a")];
  }

  lemma ChainOfFixed(entries: map<string, Row>, d: string)
    requires d == "/shared"
    ensures MkdirChain(entries, d) == Ok(entries)
  {
  }

  lemma OneMemo(entries: map<string, Row>, p: string)
    ensures CachesTell(entries, map[], map[]) && CachesTell(entries, map[p := StatOf(entries, p)], map[])
  {
  }

  lemma FlatNothing()
    ensures Flat([]) == [] && forall chunk: Bytes {:trigger [] + chunk} :: [] + chunk == chunk
  {
  }

  lemma ReadOnlyAppend(cfg: Config, db: Db, ctx: Ctx, p: string, bytes: Bytes, reaper: Reaper)
    requires ctx.readOnly
    ensures NormalizeFsPath(p).Some? ==> Append(cfg, db, ctx, NormalizeFsPath(p).value, bytes, reaper) == Err(EROFS)
  {
    hide NormalizeFsPath, Extend, SnapshotOverwrite;
  }

  lemma WrittenSoundly(cfg: Config, before: Db, ctx: Ctx, pending: Pending, p: string, bytes: Bytes, reaper: Reaper)
    requires WellFormed(before) && IsPath(p) && Write(cfg, before, ctx, p, bytes, None, reaper).Ok?
    requires forall q :: q in pending ==> Landable(before.entries, q)
    requires Clear(ViewOf(before.entries), pending, ParentOf(p))
    ensures var after := Write(cfg, before, ctx, p, bytes, None, reaper).value.entries;
            && (forall q :: q in pending - {p} ==> Landable(after, q))
            && Overlay(ViewOf(after), pending - {p}) == Written(Overlay(ViewOf(before.entries), pending), p, bytes)
  {
    hide Landable, IsPath, ParentOf, BaseName, Write, Overlay, Written, WellFormed, AddDirs;
    var v, rest := ViewOf(before.entries), pending - {p};
    var after := Write(cfg, before, ctx, p, bytes, None, reaper).value.entries;
    WriteView(cfg, before, ctx, p, bytes, None, reaper);
    WriteNotDir(cfg, before, ctx, p, bytes, reaper);
    ClearLess(v, pending, ParentOf(p), p);
    WrittenDropsBuffer(v, pending, p, bytes);
    OverlayWritten(v, rest, p, bytes);
    PathParts(p);
    forall q | q in rest ensures Landable(after, q) {
      LandableInView(before.entries, q);
      LandableInView(after, q);
      AddedStaysLandable(v, rest, ParentOf(p), q);
      PutStaysLandable(v, p, bytes, q);
    }
  }

  lemma ClearLess(v: View, pending: Pending, d: string, p: string)
    requires Clear(v, pending, d)
    ensures Clear(v, pending - {p}, d)
  {
    hide Under;
  }

  lemma WriteNotDir(cfg: Config, db: Db, ctx: Ctx, p: string, bytes: Bytes, reaper: Reaper)
    requires Write(cfg, db, ctx, p, bytes, None, reaper).Ok?
    ensures p != "/" && !IsDirNode(ViewOf(db.entries), p)
  {
    hide Place, SnapshotOverwrite, AssertWritable, AssertNotLocked;
  }

  lemma PutStaysLandable(v: View, p: string, bytes: Bytes, q: string)
    requires !IsDirNode(v, p) && IsDirNode(v, ParentOf(q)) && p != q
    requires IsDirNode(AddDirs(v, ParentOf(p)), ParentOf(q)) && !IsDirNode(AddDirs(v, ParentOf(p)), q)
    ensures IsDirNode(Written(v, p, bytes), ParentOf(q)) && !IsDirNode(Written(v, p, bytes), q)
  {
    hide AddDirs, ParentOf;
  }

  lemma ViewKeys(entries: map<string, Row>)
    ensures ViewOf(entries).Keys == entries.Keys
  {
  }

  lemma DirNodes(entries: map<string, Row>, pending: Pending, p: string)
    ensures IsDirNode(Overlay(ViewOf(entries), pending), p) <==> IsDir(entries, p)
  {
    hide Flat;
  }

  lemma StatFromView(db: Db, pending: Pending, p: string)
    requires WellFormed(db) && forall q :: q in pending ==> pending[q].bytes == |Flat(pending[q].chunks)|
    ensures var v := Overlay(ViewOf(db.entries), pending);
            && (p in v <==> p in db.entries || p in pending)
            && (p in v ==>
                  StatNode(v[p]) == if IsDir(db.entries, p) then FsStat(true, db.entries[p].size)
                                    else FsStat(false, (if p in db.entries then db.entries[p].size else 0)
                                                       + (if p in pending then pending[p].bytes else 0)))
  {
    hide Flat, IsPath, ParentOf, BaseName;
    if p in db.entries { TreeRow(db.entries, p); }
  }

  lemma ListNames(db: Db, d: string)
    requires WellFormed(db)
    ensures (set e | e in ListOf(db.entries, d) :: e.name) == Children(db.entries.Keys, d)
  {
    hide IsPath, ParentOf, BaseName;
    var names := set e | e in ListOf(db.entries, d) :: e.name;
    forall q | q in db.entries ensures db.entries[q].parent == ParentOf(q) && db.entries[q].name == BaseName(q) {
      TreeRow(db.entries, q);
    }
    forall n | n in Children(db.entries.Keys, d) ensures n in names {
      var q :| q in db.entries && ParentOf(q) == d && n == BaseName(q);
      assert MetaOf(q, db.entries[q]) in ListOf(db.entries, d);
    }
  }

  // An append creates what is missing: it is never refused for a path that is not there.
  lemma AppendNeverMisses(cfg: Config, db: Db, ctx: Ctx, p: string, bytes: Bytes, reaper: Reaper)
    ensures Append(cfg, db, ctx, p, bytes, reaper) != Err(ENOENT)
  {
    hide ParentOf, BaseName, SnapshotOverwrite, LockedBelow, LockedSelfOrAbove, MkdirChain;
    ChainNeverMisses((if |bytes| > 0 then SnapshotOverwrite(cfg, db, p, false, None, reaper).0 else db).entries,
                     ParentOf(p));
  }

  lemma MiddleIsNew(failures: seq<string>, keys: seq<string>, i: nat)
    requires i < |keys| && NoRepeats(failures + keys[i..])
    ensures keys[i] !in failures && failures + [keys[i]] + keys[i + 1..] == failures + keys[i..]
  {
    var s := failures + keys[i..];
    forall y | y in failures ensures y != keys[i] {
      var j :| 0 <= j < |failures| && failures[j] == y;
      assert s[j] == y && s[|failures|] == keys[i];
    }
  }

  lemma NothingLanded(pending: Pending, wrote: set<string>, deleted: set<string>)
    ensures Kept(pending, pending) && Told(wrote, wrote, deleted, deleted, pending.Keys - pending.Keys)
  {
  }

  lemma OneMoreLanded(before: Pending, now: Pending, p: string, wrote0: set<string>, wrote: set<string>,
                      deleted0: set<string>, deleted: set<string>)
    requires Kept(before, now) && p in now && Told(wrote0, wrote, deleted0, deleted, before.Keys - now.Keys)
    ensures Kept(before, now - {p})
    ensures Told(wrote0, wrote + {p}, deleted0, deleted - {p}, before.Keys - (now - {p}).Keys)
  {
  }

  lemma EmptyOrder(order: seq<string>, pending: Pending)
    requires forall p :: p in order <==> p in pending
    ensures pending == map[] <==> order == []
  {
    if order != [] { assert order[0] in pending; }
  }

  lemma LandedSoundly(cfg: Config, before: Db, after: Db, ctx: Ctx, pending: Pending, p: string, reaper: Reaper,
                      stats: map<string, Option<Meta>>, lists: map<string, set<Meta>>)
    requires WellFormed(before) && WellFormed(after) && p in pending && NormalizeFsPath(p).Some?
    requires CachesTell(before.entries, stats, lists) && forall q :: q in pending ==> Landable(before.entries, q)
    requires Append(cfg, before, ctx, NormalizeFsPath(p).value, Flat(pending[p].chunks), reaper).Ok?
    requires after == Append(cfg, before, ctx, NormalizeFsPath(p).value, Flat(pending[p].chunks), reaper).value
    ensures CachesTell(after.entries, stats - {p}, lists - {p, DirName(p)})
    ensures forall q :: q in pending - {p} ==> Landable(after.entries, q)
    ensures before.entries.Keys <= after.entries.Keys
    ensures Overlay(ViewOf(after.entries), pending - {p}) == Overlay(ViewOf(before.entries), pending)
  {
    hide Landable, Append, NormalizeFsPath, AddDirs, ViewOf, CachesTell, Overlay, ParentOf, DirName, Flat, Tree,
         AppendedRow, IsDir;
    LandableResolved(before.entries, p);
    LandableDirName(before.entries, p);
    AppendIsAppend(cfg, before, ctx, p, Flat(pending[p].chunks), reaper);
    LandingKeepsMemos(before.entries, after.entries, p, Flat(pending[p].chunks), stats, lists);
    forall q | q in pending - {p} ensures Landable(after.entries, q) {
      LandingKeepsLandable(before.entries, after.entries, p, Flat(pending[p].chunks), q);
    }
    AppendedRowView(before.entries, after.entries, p, Flat(pending[p].chunks));
    AppendedRowKeys(before.entries, after.entries, p, Flat(pending[p].chunks));
    NotADirNode(before.entries, p);
    LandingIsInvisible(ViewOf(before.entries), pending, p);
  }

  lemma AppendedRowKeys(before: map<string, Row>, after: map<string, Row>, p: string, bytes: Bytes)
    requires AppendedRow(before, after, p, bytes)
    ensures before.Keys <= after.Keys
  {
  }

  lemma LandableResolved(entries: map<string, Row>, p: string)
    requires Landable(entries, p)
    ensures NormalizeFsPath(p).Some? ==> NormalizeFsPath(p).value == p
    ensures !IsDir(entries, p)
  {
  }

  lemma LandableIsPath(entries: map<string, Row>, p: string)
    requires Landable(entries, p)
    ensures IsPath(p) && p != "/"
  {
  }

  lemma LandableDirName(entries: map<string, Row>, p: string)
    requires Landable(entries, p)
    ensures DirName(p) == ParentOf(p)
  {
    hide IsPath, ParentOf;
    DirNameOfPath(p);
  }

  lemma NotADirNode(entries: map<string, Row>, p: string)
    ensures IsDir(entries, p) <==> IsDirNode(ViewOf(entries), p)
  {
  }
}
