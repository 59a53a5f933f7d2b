// apps/updater/src/host.ts: the box's deploy directory, its rollback snapshot,
// the state file and the running app, as effects that may also throw or be the
// last thing the process does.
module Hosts {
  import opened Options
  import opened Versions

  type Content = string
  type Env = map<string, string>

  // The deploy-tree entries a bundle may replace; .env is never one of them.
  datatype Entry = ComposeFile | Caddyfile | PostgresDir | PgbackrestDir | LogViewer
  type Tree = map<Entry, Content>

  const DEPLOY_TREE_ENTRIES: seq<Entry> := [ComposeFile, Caddyfile, PostgresDir, PgbackrestDir, LogViewer]

  const APP_PIN := "BRAIN_IMAGE"
  const UPDATER_PIN := "BRAIN_UPDATER_IMAGE"
  const POSTGRES_PIN := "BRAIN_POSTGRES_IMAGE"
  const CADDY_PIN := "BRAIN_CADDY_IMAGE"
  const IMAGE_REPO := "ghcr.io/maslow-tech/maslow/box"

  function ImageRef(digest: string): string { IMAGE_REPO + "@" + digest }

  datatype Snapshot = Snapshot(env: Option<Env>, tree: Tree, stamp: Option<string>)

  // Everything that outlives the updater process. `running` is the image of the app container.
  datatype Disk = Disk(
    env: Option<Env>, tree: Tree, snapshot: Snapshot, state: PersistedState, running: Option<string>)

  // What becomes of one effect, and what an interrupted one leaves behind.
  datatype Debris = Debris(torn: Option<Content>, tornEnv: Option<Env>, left: set<Entry>, removed: bool, ran: bool)
  datatype Fate = Lands | Throws(debris: Debris) | Dies(debris: Debris)

  // The kinds of effect, by what a throw of theirs would mean.
  datatype Effect =
    | Listing | Beating | Verifying | Fetching | Pulling | Unpacking | PostgresUp | Migrating | Probing | Pruning
    | Restarting | Reading | Reconciling | Recreating
    | JournalSave | HealSave | EndSave | MarksSave
    | Pinning | Composing | Laying | Restoring | Clearing | Snapping | Stamping

  // What a run can count on from one kind of effect.
  datatype Luck = Always | Never | Mixed

  // How control comes back: normally, with an exception, or not at all.
  datatype Signal = Fine | Thrown | Died {
    predicate IsFailure() { !Fine? }
    function PropagateFailure(): Signal { this }
  }

  function SignalOf(f: Fate): Signal {
    match f case Lands => Fine case Throws(_) => Thrown case Dies(_) => Died
  }

  function AfterUp(d: Disk): Disk {
    if d.env.Some? && APP_PIN in d.env.value then d.(running := Some(d.env.value[APP_PIN])) else d
  }

  // ---- what a heal would bring back ------------------------------------------------

  function RestoredEnv(d: Disk, v: string): Option<Env> {
    if d.snapshot.stamp == Some(v) && d.snapshot.env.Some? then d.snapshot.env else d.env
  }

  function RestoredTree(d: Disk, v: string): Tree {
    if d.snapshot.stamp == Some(v) then d.tree + d.snapshot.tree else d.tree
  }

  predicate SameButApp(a: Option<Env>, b: Option<Env>) {
    a.Some? == b.Some? && (a.Some? ==> a.value - {APP_PIN} == b.value - {APP_PIN})
  }

  // The shape before a series of attempts began, the entries its bundles brought, and whether
  // every one of those bundles was laid down to its end.
  datatype Baseline = Baseline(env: Option<Env>, tree: Tree, laid: set<Entry>, whole: bool)

  ghost predicate TreeIsBack(t: Tree, b: Baseline) {
    && (forall e :: e in b.tree ==> e in t && t[e] == b.tree[e])
    && (forall e :: e in t ==> e in b.tree || e in b.laid)
    && (b.whole ==> b.laid <= t.Keys)
  }

  ghost predicate Healable(d: Disk, v: string, b: Baseline) {
    && SameButApp(RestoredEnv(d, v), b.env)
    && TreeIsBack(RestoredTree(d, v), b)
    && (d.snapshot.stamp == Some(v) ==>
          b.tree.Keys <= d.snapshot.tree.Keys && (b.env.Some? ==> d.snapshot.env.Some?))
  }

  // What a run has done so far: the baseline of each version's current series, the failures
  // written to the state file, and the versions verified.
  datatype Log = Log(bases: map<string, Baseline>, recorded: seq<string>, touched: seq<string>)

  lemma AllEntries(e: Entry)
    ensures e in DEPLOY_TREE_ENTRIES
  {
    match e {
      case ComposeFile => assert DEPLOY_TREE_ENTRIES[0] == e;
      case Caddyfile => assert DEPLOY_TREE_ENTRIES[1] == e;
      case PostgresDir => assert DEPLOY_TREE_ENTRIES[2] == e;
      case PgbackrestDir => assert DEPLOY_TREE_ENTRIES[3] == e;
      case LogViewer => assert DEPLOY_TREE_ENTRIES[4] == e;
    }
  }

  class BoxHost {
    const fates: (Effect, nat) -> Fate
    var clock: nat
    var disk: Disk
    // How often the state file was replaced, as its inode tells.
    var saves: nat
    ghost var log: Log

    constructor (fates: (Effect, nat) -> Fate, disk: Disk)
      ensures this.disk == disk && this.fates == fates && this.clock == 0 && this.saves == 0
      ensures log == Log(map[], [], [])
    {
      this.fates := fates;
      this.disk := disk;
      this.clock := 0;
      this.saves := 0;
      this.log := Log(map[], [], []);
    }

    // Every effect of this kind lands; or every one of them throws.
    ghost predicate Lands(e: Effect) { forall n: nat :: fates(e, n).Lands? }
    ghost predicate Balks(e: Effect) { forall n: nat :: fates(e, n).Throws? }

    ghost function LuckOf(e: Effect): Luck {
      if Lands(e) then Always else if Balks(e) then Never else Mixed
    }

    // Everything lands, leaving open the migration, the forced restart and the saving of its mark.
    ghost predicate Calm() {
      forall e: Effect :: e != Migrating && e != Restarting && e != MarksSave ==> Lands(e)
    }

    // So do those two.
    ghost predicate OpLands() { Lands(Restarting) && Lands(MarksSave) }

    method NextFate(e: Effect) returns (f: Fate)
      modifies this`clock
      ensures f == fates(e, old(clock))
    {
      f := fates(e, clock);
      clock := clock + 1;
    }

    // An outside call that leaves the box as it is: pull, cosign, fetchBundle, migrate.
    method External(e: Effect) returns (r: Signal)
      modifies this`clock
      ensures Lands(e) ==> r.Fine?
      ensures Balks(e) ==> r.Thrown?
    {
      var f := NextFate(e);
      return SignalOf(f);
    }

    // saveState: temp file and rename, either of which may throw; the file then stays as it was.
    method SaveState(e: Effect, state: PersistedState) returns (r: Signal)
      modifies this`disk, this`clock, this`saves
      ensures disk == if r.Fine? then old(disk).(state := state) else old(disk)
      ensures saves == old(saves) + (if r.Fine? then 1 else 0)
      ensures (Lands(e) ==> r.Fine?) && (Balks(e) ==> r.Thrown?)
    {
      var f := NextFate(e);
      if f.Lands? {
        disk := disk.(state := state);
        saves := saves + 1;
      }
      return SignalOf(f);
    }

    // pinEnv: temp file and rename; a missing .env makes the read throw.
    method PinEnv(name: string, value: string) returns (r: Signal)
      modifies this`disk, this`clock
      ensures r.Fine? ==> old(disk).env.Some?
      ensures disk == if r.Fine? then old(disk).(env := Some(old(disk).env.value[name := value])) else old(disk)
      ensures Lands(Pinning) ==> !r.Died? && (old(disk).env.Some? ==> r.Fine?)
    {
      var f := NextFate(Pinning);
      if f.Dies? { return Died; }
      if f.Throws? || disk.env.None? { return Thrown; }
      disk := disk.(env := Some(disk.env.value[name := value]));
      return Fine;
    }

    method PinImage(digest: string) returns (r: Signal)
      modifies this`disk, this`clock
      ensures r.Fine? ==> old(disk).env.Some?
      ensures disk == if r.Fine? then old(disk).(env := Some(old(disk).env.value[APP_PIN := ImageRef(digest)]))
                      else old(disk)
      ensures Lands(Pinning) ==> !r.Died? && (old(disk).env.Some? ==> r.Fine?)
    {
      r := PinEnv(APP_PIN, ImageRef(digest));
    }

    // `compose up` of the app, or of every service but the updater, on the pinned images.
    method Up() returns (r: Signal)
      modifies this`disk, this`clock
      ensures r.Fine? ==> disk == AfterUp(old(disk))
      ensures disk == old(disk) || disk == AfterUp(old(disk))
      ensures Lands(Composing) ==> r.Fine?
    {
      var f := NextFate(Composing);
      if f.Lands? || f.debris.ran { disk := AfterUp(disk); }
      return SignalOf(f);
    }

    // rm then cp of one tree entry: cut short, the entry is gone or torn.
    method ReplaceEntry(kind: Effect, e: Entry, c: Content) returns (r: Signal)
      modifies this`disk, this`clock
      ensures r.Fine? ==> disk == old(disk).(tree := old(disk).tree[e := c])
      ensures disk == old(disk).(tree := disk.tree) && disk.tree - {e} == old(disk).tree - {e}
      ensures Lands(kind) ==> r.Fine?
    {
      var f := NextFate(kind);
      disk := disk.(tree := disk.tree - {e});
      if f.Lands? {
        disk := disk.(tree := disk.tree[e := c]);
      } else if f.debris.torn.Some? {
        disk := disk.(tree := disk.tree[e := f.debris.torn.value]);
      }
      return SignalOf(f);
    }

    // The rm-and-cp loop over the fixed entries; those `from` lacks stay as they are.
    method ReplaceEntries(kind: Effect, from: Tree) returns (r: Signal)
      modifies this`disk, this`clock
      ensures r.Fine? ==> disk == old(disk).(tree := old(disk).tree + from)
      ensures disk == old(disk).(tree := disk.tree)
      ensures forall e :: e !in from ==> (e in disk.tree <==> e in old(disk).tree)
      ensures forall e :: e !in from && e in disk.tree ==> disk.tree[e] == old(disk).tree[e]
      ensures Lands(kind) ==> r.Fine?
    {
      var i := 0;
      while i < |DEPLOY_TREE_ENTRIES|
        invariant 0 <= i <= |DEPLOY_TREE_ENTRIES|
        invariant disk == old(disk).(tree := disk.tree)
        invariant forall e :: e !in from ==> (e in disk.tree <==> e in old(disk).tree)
        invariant forall e :: e !in from && e in disk.tree ==> disk.tree[e] == old(disk).tree[e]
        invariant forall e :: e in from && e in DEPLOY_TREE_ENTRIES[..i] ==> e in disk.tree && disk.tree[e] == from[e]
      {
        var e := DEPLOY_TREE_ENTRIES[i];
        if e in from {
          ghost var before := disk.tree;
          r := ReplaceEntry(kind, e, from[e]);
          assert forall x :: x != e ==> (x in disk.tree <==> x in disk.tree - {e});
          assert forall x :: x != e ==> (x in before <==> x in before - {e});
          assert forall x :: x != e && x in before ==> before[x] == (before - {e})[x];
          assert forall x :: x != e && x in disk.tree ==> disk.tree[x] == (disk.tree - {e})[x];
          if !r.Fine? { return r; }
        }
        i := i + 1;
      }
      forall e | e in from ensures e in disk.tree && disk.tree[e] == from[e] { AllEntries(e); }
      assert disk.tree == old(disk).tree + from;
      return Fine;
    }

    // applyDeployTree: the hash check and the unpacking may fail before anything is replaced.
    method ApplyDeployTree(bundle: Tree) returns (r: Signal)
      modifies this`disk, this`clock
      ensures r.Fine? ==> disk == old(disk).(tree := old(disk).tree + bundle)
      ensures disk == old(disk).(tree := disk.tree)
      ensures forall e :: e !in bundle ==> (e in disk.tree <==> e in old(disk).tree)
      ensures forall e :: e !in bundle && e in disk.tree ==> disk.tree[e] == old(disk).tree[e]
      ensures Lands(Unpacking) && Lands(Laying) ==> r.Fine?
    {
      r := External(Unpacking);
      if !r.Fine? { return; }
      r := ReplaceEntries(Laying, bundle);
    }

    // rmSync of the snapshot directory. Cut short it has removed nothing, or the stamp and some files.
    method ClearDeploySnapshot() returns (r: Signal)
      modifies this`disk, this`clock
      ensures disk == old(disk).(snapshot := disk.snapshot)
      ensures disk.snapshot == old(disk).snapshot || disk.snapshot.stamp.None?
      ensures r.Fine? ==> disk.snapshot == Snapshot(None, map[], None)
      ensures Lands(Clearing) ==> r.Fine?
    {
      var f := NextFate(Clearing);
      if f.Lands? {
        disk := disk.(snapshot := Snapshot(None, map[], None));
      } else if f.debris.removed {
        var left := map e | e in disk.snapshot.tree && e in f.debris.left :: disk.snapshot.tree[e];
        disk := disk.(snapshot := Snapshot(f.debris.tornEnv, left, None));
      }
      return SignalOf(f);
    }

    // snapshotDeploy: remove, copy entry by entry, stamp last. A stamp cut short may name any version,
    // over a snapshot that is whole.
    method SnapshotDeploy(version: string) returns (r: Signal)
      modifies this`disk, this`clock
      ensures disk == old(disk).(snapshot := disk.snapshot)
      ensures r.Fine? ==> disk.snapshot == Snapshot(old(disk).env, old(disk).tree, Some(version))
      ensures !r.Fine? ==>
                || disk.snapshot == old(disk).snapshot || disk.snapshot.stamp.None?
                || disk.snapshot == Snapshot(old(disk).env, old(disk).tree, disk.snapshot.stamp)
      ensures Lands(Clearing) && Lands(Snapping) && Lands(Stamping) ==> r.Fine?
    {
      r := ClearDeploySnapshot();
      if !r.Fine? { return; }
      var f := NextFate(Snapping);
      if !f.Lands? {
        disk := disk.(snapshot := disk.snapshot.(env := f.debris.tornEnv));
        return SignalOf(f);
      }
      disk := disk.(snapshot := disk.snapshot.(env := disk.env));
      var i := 0;
      while i < |DEPLOY_TREE_ENTRIES|
        invariant 0 <= i <= |DEPLOY_TREE_ENTRIES|
        invariant disk == old(disk).(snapshot := disk.snapshot)
        invariant disk.snapshot.stamp.None? && disk.snapshot.env == disk.env
        invariant forall e :: e in disk.snapshot.tree ==> e in disk.tree && disk.snapshot.tree[e] == disk.tree[e]
        invariant forall e :: e in disk.tree && e in DEPLOY_TREE_ENTRIES[..i] ==> e in disk.snapshot.tree
      {
        var e := DEPLOY_TREE_ENTRIES[i];
        if e in disk.tree {
          f := NextFate(Snapping);
          if !f.Lands? { return SignalOf(f); }
          disk := disk.(snapshot := disk.snapshot.(tree := disk.snapshot.tree[e := disk.tree[e]]));
        }
        i := i + 1;
      }
      forall e | e in disk.tree ensures e in disk.snapshot.tree { AllEntries(e); }
      assert disk.snapshot.tree == disk.tree;
      f := NextFate(Stamping);
      var stamp := if f.Lands? then Some(version) else f.debris.torn;
      disk := disk.(snapshot := disk.snapshot.(stamp := stamp));
      return SignalOf(f);
    }

    // restoreDeploySnapshot: delete then copy, but only entries the snapshot holds.
    method RestoreDeploySnapshot() returns (r: Signal)
      modifies this`disk, this`clock
      ensures disk == old(disk).(env := disk.env, tree := disk.tree)
      ensures old(disk).snapshot.env.None? ==> disk.env == old(disk).env
      ensures forall e :: e !in old(disk).snapshot.tree ==> (e in disk.tree <==> e in old(disk).tree)
      ensures forall e :: e !in old(disk).snapshot.tree && e in disk.tree ==> disk.tree[e] == old(disk).tree[e]
      ensures r.Fine? ==>
                disk.tree == old(disk).tree + old(disk).snapshot.tree
                && disk.env == if old(disk).snapshot.env.Some? then old(disk).snapshot.env else old(disk).env
      ensures Lands(Restoring) ==> r.Fine?
    {
      if disk.snapshot.env.Some? {
        var f := NextFate(Restoring);
        disk := disk.(env := if f.Lands? then disk.snapshot.env else f.debris.tornEnv);
        if !f.Lands? { return SignalOf(f); }
      }
      r := ReplaceEntries(Restoring, disk.snapshot.tree);
    }
  }

  // ---- when a restore is exact -------------------------------------------------------

  // A restored tree is the baseline's as soon as no bundle of the series brought an entry the
  // baseline lacked, and, when those bundles were laid down to the end, only then: what a bundle
  // added outlives the restore, since restoreDeploySnapshot skips what the snapshot lacks.
  lemma HealedTreeExact(t: Tree, b: Baseline)
    requires TreeIsBack(t, b)
    ensures b.laid <= b.tree.Keys ==> t == b.tree
    ensures b.whole ==> (t == b.tree <==> b.laid <= b.tree.Keys)
  {
    if b.laid <= b.tree.Keys { assert t.Keys <= b.tree.Keys; assert t == b.tree; }
  }

  // Why ClearDeploySnapshot takes the stamp with the first file it removes: a stamp left over
  // a half-emptied snapshot would be trusted by the next attempt of that version.
  lemma HalfEmptiedSnapshotMisleads(v: string, state: PersistedState)
    ensures exists d: Disk, b: Baseline ::
              && Healable(d, v, b)
              && !Healable(d.(snapshot := d.snapshot.(tree := map[])), v, b)
              && d.snapshot.stamp == Some(v)
  {
    var b := Baseline(Some(map[]), map[Caddyfile := "old"], {}, true);
    var kept := Snapshot(Some(map[]), map[Caddyfile := "old"], Some(v));
    var d := Disk(Some(map[]), map[Caddyfile := "new"], kept, state, None);
    assert RestoredTree(d, v) == map[Caddyfile := "old"];
    assert Healable(d, v, b);
    var half := d.(snapshot := d.snapshot.(tree := map[]));
    assert RestoredTree(half, v)[Caddyfile] == "new";
    assert !Healable(half, v, b);
  }
}
