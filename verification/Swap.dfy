// apps/updater/src/runtime.ts: the journaled swap. Each step keeps the promise that a
// journal or a stamped snapshot can still bring the old shape back.
module Swap {
  import opened Options
  import opened Semvers
  import opened Versions
  import opened Hosts

  datatype Bundle = Bundle(
    tree: Tree, postgresRef: string, caddyRef: string, updaterRef: string,
    postgresChanged: bool, updaterChanged: bool)

  // What a journal promises: the shape its series began from can be brought back.
  ghost predicate Guarded(d: Disk, bases: map<string, Baseline>, journal: Option<string>) {
    journal.Some? ==> journal.value in bases && Healable(d, journal.value, bases[journal.value])
  }

  // What a stamped snapshot promises, whichever state the updater is in.
  ghost predicate StampSafe(d: Disk, bases: map<string, Baseline>) {
    Guarded(d, bases, d.snapshot.stamp)
  }

  ghost predicate Safe(d: Disk, bases: map<string, Baseline>, v: string) {
    StampSafe(d, bases) && Guarded(d, bases, Some(v))
  }

  // The heal's promise: pins and tree as before the series, the app pinned to and running `digest`.
  ghost predicate ShapeIsBack(d: Disk, b: Baseline, digest: string) {
    && d.env.Some? && SameButApp(d.env, b.env) && TreeIsBack(d.tree, b) && RunsPinned(d, digest)
  }

  predicate RunsPinned(d: Disk, digest: string) {
    Pinned(d, digest) && d.running == Some(ImageRef(digest))
  }

  predicate Pinned(d: Disk, digest: string) {
    d.env.Some? && APP_PIN in d.env.value && d.env.value[APP_PIN] == ImageRef(digest)
  }

  // ---- lemmas: what each kind of effect leaves healable -----------------------------

  lemma PinKeepsHealable(d: Disk, v: string, b: Baseline, value: string)
    requires Healable(d, v, b) && d.env.Some?
    ensures Healable(d.(env := Some(d.env.value[APP_PIN := value])), v, b)
  {
    var e := d.env.value;
    assert e[APP_PIN := value] - {APP_PIN} == e - {APP_PIN};
  }

  lemma PinKeepsGuarded(d: Disk, bases: map<string, Baseline>, journal: Option<string>, value: string)
    requires Guarded(d, bases, journal) && d.env.Some?
    ensures Guarded(d.(env := Some(d.env.value[APP_PIN := value])), bases, journal)
  {
    if journal.Some? { PinKeepsHealable(d, journal.value, bases[journal.value], value); }
  }

  lemma PinKeepsSafe(d: Disk, bases: map<string, Baseline>, v: string, value: string)
    requires Safe(d, bases, v) && d.env.Some?
    ensures Safe(d.(env := Some(d.env.value[APP_PIN := value])), bases, v)
  {
    PinKeepsGuarded(d, bases, d.snapshot.stamp, value);
    PinKeepsGuarded(d, bases, Some(v), value);
  }

  // A restore, finished or not, changes only what the snapshot can put back again.
  lemma RestoreKeepsHealable(d: Disk, d': Disk, v: string, b: Baseline)
    requires Healable(d, v, b) && d.snapshot.stamp == Some(v)
    requires d' == d.(env := d'.env, tree := d'.tree)
    requires d.snapshot.env.None? ==> d'.env == d.env
    requires forall e :: e !in d.snapshot.tree ==> (e in d'.tree <==> e in d.tree)
    requires forall e :: e !in d.snapshot.tree && e in d'.tree ==> d'.tree[e] == d.tree[e]
    ensures Healable(d', v, b)
  {
    assert RestoredTree(d', v) == RestoredTree(d, v);
  }

  // So does laying down a bundle once the snapshot is stamped. Cut short, it may also have
  // taken away an entry an earlier bundle of the series brought.
  lemma ApplyKeepsHealable(d: Disk, d': Disk, v: string, b: Baseline, bundle: Tree)
    requires Healable(d, v, b) && d.snapshot.stamp == Some(v)
    requires d' == d.(tree := d'.tree)
    requires forall e :: e !in bundle ==> (e in d'.tree <==> e in d.tree)
    ensures Healable(d', v, b.(laid := b.laid + bundle.Keys, whole := false))
    ensures d'.tree == d.tree + bundle ==> Healable(d', v, b.(laid := b.laid + bundle.Keys))
  {
    forall e | e in RestoredTree(d', v) ensures e in b.tree || e in b.laid + bundle.Keys {
      if e in d'.tree && e !in bundle { assert e in RestoredTree(d, v); }
      if e in d.snapshot.tree { assert e in RestoredTree(d, v); }
    }
  }

  // Losing a snapshot, or the wrong one, is harmless once the shape itself is back.
  lemma ClearKeepsHealable(d: Disk, d': Disk, v: string, b: Baseline)
    requires SameButApp(d.env, b.env) && TreeIsBack(d.tree, b)
    requires d' == d.(snapshot := d'.snapshot) && d'.snapshot.stamp != Some(v)
    ensures Healable(d', v, b)
  {
  }

  lemma SnapshotMakesHealable(d: Disk, v: string, b: Baseline)
    requires SameButApp(d.env, b.env) && TreeIsBack(d.tree, b)
    ensures Healable(d.(snapshot := Snapshot(d.env, d.tree, Some(v))), v, b)
  {
    assert d.tree + d.tree == d.tree;
  }

  // Snapshotting for another version gives up v's own: v stays healable exactly when its
  // baseline was back at that moment.
  lemma SnapshotForAnother(d: Disk, v: string, v': string, b: Baseline)
    requires v != v'
    ensures Healable(d.(snapshot := Snapshot(d.env, d.tree, Some(v'))), v, b)
       <==> SameButApp(d.env, b.env) && TreeIsBack(d.tree, b)
  {
  }

  // ---- putting the old shape back ----------------------------------------------------

  // The heal of a journaled version whose stamped snapshot survives (runtime.ts:184-189).
  method HealFromSnapshot(host: BoxHost, v: string, digest: string) returns (r: Signal)
    requires StampSafe(host.disk, host.log.bases) && host.disk.snapshot.stamp == Some(v)
    modifies host`disk, host`clock
    ensures Safe(host.disk, host.log.bases, v) && host.disk.state == old(host.disk.state)
    ensures r.Fine? ==> ShapeIsBack(host.disk, host.log.bases[v], digest) && host.disk.snapshot.stamp.None?
    ensures host.Calm() ==> !r.Died? && (old(host.disk).env.Some? ==> r.Fine?)
  {
    ghost var b := host.log.bases[v];
    ghost var d := host.disk;
    r := host.RestoreDeploySnapshot();
    RestoreKeepsHealable(d, host.disk, v, b);
    if !r.Fine? { return r; }
    d := host.disk;
    r := host.PinImage(digest);
    if !r.Fine? { return r; }
    PinKeepsHealable(d, v, b, ImageRef(digest));
    :- host.Up();
    :- host.Up();
    d := host.disk;
    r := host.ClearDeploySnapshot();
    if host.disk.snapshot.stamp.None? { ClearKeepsHealable(d, host.disk, v, b); }
  }

  // The heal of a journaled version without its own snapshot: any other snapshot is stale.
  method HealPinOnly(host: BoxHost, v: string, digest: string) returns (r: Signal)
    requires StampSafe(host.disk, host.log.bases) && host.disk.snapshot.stamp != Some(v)
    modifies host`disk, host`clock
    ensures StampSafe(host.disk, host.log.bases) && host.disk.state == old(host.disk.state)
    ensures r.Fine? ==> RunsPinned(host.disk, digest) && host.disk.snapshot.stamp.None?
    ensures old(Guarded(host.disk, host.log.bases, Some(v))) ==>
              && Guarded(host.disk, host.log.bases, Some(v))
              && (r.Fine? ==> ShapeIsBack(host.disk, host.log.bases[v], digest))
    ensures host.Calm() ==> !r.Died? && (old(host.disk).env.Some? ==> r.Fine?)
  {
    ghost var bases, healable := host.log.bases, Guarded(host.disk, host.log.bases, Some(v));
    ghost var d := host.disk;
    if host.disk.snapshot.stamp.Some? {
      r := host.ClearDeploySnapshot();
      if healable { ClearKeepsHealable(d, host.disk, v, bases[v]); }
      if !r.Fine? { return r; }
    }
    d := host.disk;
    r := host.PinImage(digest);
    if !r.Fine? { return r; }
    if healable { PinKeepsHealable(d, v, bases[v], ImageRef(digest)); }
    r := host.Up();
  }

  function Counted(p: PersistedState, v: string): PersistedState {
    p.(attempting := None, attempts := p.attempts[v := (if v in p.attempts then p.attempts[v] else 0) + 1])
  }

  // The resume block: heal, then count the attempt and clear the journal in one save. A heal
  // that throws keeps the journal and the tick goes on; only the save's own throw escapes.
  method ResumeJournal(host: BoxHost, persisted: PersistedState, v: string, cur: Release)
    returns (r: Signal, healed: bool, next: PersistedState)
    requires StampSafe(host.disk, host.log.bases) && persisted.attempting == Some(v)
    modifies host
    ensures StampSafe(host.disk, host.log.bases)
    ensures old(Guarded(host.disk, host.log.bases, Some(v))) ==> Guarded(host.disk, host.log.bases, Some(v))
    ensures healed ==> r.Fine? && RunsPinned(host.disk, cur.imageDigest) && host.disk.snapshot.stamp.None?
    ensures healed && old(Guarded(host.disk, host.log.bases, Some(v))) ==>
              HealedTo(host.disk, host.log.bases[v], cur.imageDigest)
    ensures next == if healed then Counted(persisted, v) else persisted
    ensures host.disk.state == if healed then next else old(host.disk).state
    ensures host.saves == old(host.saves) + (if healed then 1 else 0)
    ensures host.log == if healed then old(host.log).(recorded := old(host.log).recorded + [v]) else old(host.log)
    ensures host.Calm() ==> r.Fine? && (old(host.disk).env.Some? ==> healed)
  {
    healed, next := false, persisted;
    if host.disk.snapshot.stamp == Some(v) {
      r := HealFromSnapshot(host, v, cur.imageDigest);
    } else {
      r := HealPinOnly(host, v, cur.imageDigest);
    }
    if r.Died? { return; }
    if r.Thrown? { r := Fine; return; }
    r := host.SaveState(HealSave, Counted(persisted, v));
    if !r.Fine? { return; }
    healed, next := true, Counted(persisted, v);
    host.log := host.log.(recorded := host.log.recorded + [v]);
    if old(Guarded(host.disk, host.log.bases, Some(v))) { HealedTreeExact(host.disk.tree, host.log.bases[v]); }
  }

  // A finished heal: the shape is back, and the tree is exactly the old one if and, once every
  // bundle of the series was laid down to its end, only if none brought an entry of its own.
  ghost predicate HealedTo(d: Disk, b: Baseline, digest: string) {
    && ShapeIsBack(d, b, digest)
    && (b.laid <= b.tree.Keys ==> d.tree == b.tree)
    && (b.whole ==> (d.tree == b.tree <==> b.laid <= b.tree.Keys))
  }

  // ---- the swap ---------------------------------------------------------------------

  // The catch blocks of migrate and restart: restore, up, clear, then pin back. A throw on
  // the way keeps snapshot and journal for the next tick.
  method Unwind(host: BoxHost, v: string, bundle: Option<Bundle>, digest: string) returns (r: Signal)
    requires Safe(host.disk, host.log.bases, v)
    modifies host`disk, host`clock
    ensures Safe(host.disk, host.log.bases, v) && host.disk.state == old(host.disk.state)
    ensures r.Fine? ==> Pinned(host.disk, digest)
    ensures host.Calm() && old(host.disk).env.Some? ==> r.Fine?
  {
    ghost var b := host.log.bases[v];
    ghost var d := host.disk;
    if bundle.Some? && host.disk.snapshot.stamp == Some(v) {
      r := host.RestoreDeploySnapshot();
      RestoreKeepsHealable(d, host.disk, v, b);
      if !r.Fine? { return r; }
      :- host.Up();
      d := host.disk;
      r := host.ClearDeploySnapshot();
      if host.disk.snapshot.stamp.None? { ClearKeepsHealable(d, host.disk, v, b); }
      if !r.Fine? { return r; }
    }
    d := host.disk;
    r := host.PinImage(digest);
    if r.Fine? {
      PinKeepsSafe(d, host.log.bases, v, ImageRef(digest));
    }
  }

  // The journal goes to disk before the first mutation; a save that throws or dies leaves the
  // file as it was. The baseline is the shape at that moment, unless the version's own
  // snapshot, or a journal that can still be healed, says its series is already under way.
  method OpenJournal(host: BoxHost, persisted: PersistedState, v: string) returns (r: Signal)
    requires StampSafe(host.disk, host.log.bases)
    modifies host
    ensures Safe(host.disk, host.log.bases, v)
    ensures host.disk == if r.Fine? then old(host.disk).(state := persisted.(attempting := Some(v))) else old(host.disk)
    ensures host.saves == old(host.saves) + (if r.Fine? then 1 else 0)
    ensures host.log == old(host.log).(bases := host.log.bases)
    ensures if UnderWay(old(host.disk), old(host.log).bases, persisted, v)
            then host.log.bases == old(host.log).bases
            else host.log.bases == old(host.log).bases[v := Baseline(old(host.disk).env, old(host.disk).tree, {}, true)]
    ensures host.Calm() ==> r.Fine?
  {
    if !UnderWay(host.disk, host.log.bases, persisted, v) {
      assert Healable(host.disk, v, Baseline(host.disk.env, host.disk.tree, {}, true));
      host.log := host.log.(bases := host.log.bases[v := Baseline(host.disk.env, host.disk.tree, {}, true)]);
    }
    r := host.SaveState(JournalSave, persisted.(attempting := Some(v)));
  }

  ghost predicate UnderWay(d: Disk, bases: map<string, Baseline>, p: PersistedState, v: string) {
    d.snapshot.stamp == Some(v) || (p.attempting == Some(v) && Guarded(d, bases, Some(v)))
  }

  // Snapshot, configs, pins, postgres: the mutations of a bundle apply, up to the migration.
  method ApplyBundle(host: BoxHost, v: string, digest: string, bundle: Bundle) returns (r: Signal)
    requires Safe(host.disk, host.log.bases, v)
    modifies host`disk, host`clock, host`log
    ensures Safe(host.disk, host.log.bases, v) && host.disk.state == old(host.disk.state)
    ensures host.log == old(host.log).(bases := host.log.bases)
    ensures r.Fine? ==> host.disk.snapshot.stamp == Some(v) && Pinned(host.disk, digest)
                        && Extended(old(host.log.bases), host.log.bases, v, bundle.tree.Keys)
                        && host.log.bases[v].whole == old(host.log.bases[v].whole)
    ensures host.Calm() && old(host.disk).env.Some? ==> r.Fine?
    ensures old(host.disk).env.Some? ==> host.disk.env.Some?
  {
    hide Healable;
    if host.disk.snapshot.stamp != Some(v) {
      ghost var d, bases := host.disk, host.log.bases;
      r := host.SnapshotDeploy(v);
      host.log := host.log.(bases := AfterSnapshot(bases, d, host.disk, v, r.Fine?));
      SnapshotKeepsSafe(d, host.disk, bases, v, r.Fine?);
      if !r.Fine? { return r; }
    }
    r := LayBundle(host, v, bundle.tree);
    if !r.Fine? { return r; }
    ghost var d := host.disk;
    r := host.PinImage(digest);
    if !r.Fine? { return r; }
    PinKeepsSafe(d, host.log.bases, v, ImageRef(digest));
    r := PinInfra(host, v, bundle);
  }

  // A torn stamp may name some version u: its snapshot is the shape as it is, so that is u's baseline.
  ghost function AfterSnapshot(bases: map<string, Baseline>, d: Disk, d': Disk, v: string,
                               done: bool): map<string, Baseline> {
    var stamp := d'.snapshot.stamp;
    if !done && d'.snapshot != d.snapshot && stamp.Some? && stamp != Some(v)
    then bases[stamp.value := Baseline(d.env, d.tree, {}, true)] else bases
  }

  ghost predicate Extended(bases: map<string, Baseline>, bases': map<string, Baseline>, v: string, keys: set<Entry>) {
    && v in bases && v in bases'
    && bases' == bases[v := bases[v].(laid := bases[v].laid + keys, whole := bases'[v].whole)]
    && (bases'[v].whole ==> bases[v].whole)
  }

  lemma SnapshotKeepsSafe(d: Disk, d': Disk, bases: map<string, Baseline>, v: string, done: bool)
    requires Safe(d, bases, v) && d.snapshot.stamp != Some(v)
    requires d' == d.(snapshot := d'.snapshot)
    requires done ==> d'.snapshot == Snapshot(d.env, d.tree, Some(v))
    requires d'.snapshot == Snapshot(d.env, d.tree, d'.snapshot.stamp) || d'.snapshot == d.snapshot
             || d'.snapshot.stamp.None?
    ensures Safe(d', AfterSnapshot(bases, d, d', v, done), v)
    ensures done ==> AfterSnapshot(bases, d, d', v, done) == bases
  {
    var stamp := d'.snapshot.stamp;
    if stamp == Some(v) {
      SnapshotMakesHealable(d, v, bases[v]);
    } else if stamp.Some? && d'.snapshot != d.snapshot {
      SnapshotMakesHealable(d, stamp.value, Baseline(d.env, d.tree, {}, true));
    }
  }

  method LayBundle(host: BoxHost, v: string, tree: Tree) returns (r: Signal)
    requires Safe(host.disk, host.log.bases, v) && host.disk.snapshot.stamp == Some(v)
    modifies host`disk, host`clock, host`log
    ensures Safe(host.disk, host.log.bases, v) && host.disk == old(host.disk).(tree := host.disk.tree)
    ensures host.log == old(host.log).(bases := host.log.bases)
    ensures Extended(old(host.log.bases), host.log.bases, v, tree.Keys)
    ensures r.Fine? ==> host.log.bases[v].whole == old(host.log.bases[v].whole)
    ensures host.Calm() ==> r.Fine?
  {
    hide Healable;
    ghost var b, d := host.log.bases[v], host.disk;
    host.log := host.log.(bases := host.log.bases[v := b.(laid := b.laid + tree.Keys, whole := false)]);
    r := host.ApplyDeployTree(tree);
    ApplyKeepsHealable(d, host.disk, v, b, tree);
    if r.Fine? {
      host.log := host.log.(bases := host.log.bases[v := b.(laid := b.laid + tree.Keys)]);
    }
  }

  method PinInfra(host: BoxHost, v: string, bundle: Bundle) returns (r: Signal)
    requires Safe(host.disk, host.log.bases, v) && host.disk.snapshot.stamp == Some(v)
    requires host.disk.env.Some? && APP_PIN in host.disk.env.value
    modifies host`disk, host`clock
    ensures Safe(host.disk, host.log.bases, v) && host.disk.state == old(host.disk.state)
    ensures host.disk.snapshot == old(host.disk.snapshot)
    ensures host.disk.env.Some? && APP_PIN in host.disk.env.value
         && host.disk.env.value[APP_PIN] == old(host.disk).env.value[APP_PIN]
    ensures host.Calm() ==> r.Fine?
  {
    ghost var b := host.log.bases[v];
    assert host.disk.snapshot.env.Some?;
    :- host.PinEnv(POSTGRES_PIN, bundle.postgresRef);
    :- host.PinEnv(CADDY_PIN, bundle.caddyRef);
    if bundle.postgresChanged {
      // compose up of postgres only: the app container is not touched
      :- host.External(PostgresUp);
    }
    return Fine;
  }

  // The migrate adapter (runtime.ts:440-491). `wrote` tells whether the journal reached the disk.
  method Migrate(host: BoxHost, persisted: PersistedState, target: Release, prev: Release, bundle: Option<Bundle>)
    returns (r: Signal, ghost wrote: bool)
    requires StampSafe(host.disk, host.log.bases)
    modifies host
    ensures Safe(host.disk, host.log.bases, target.version)
    ensures host.log == old(host.log).(bases := host.log.bases)
    ensures !wrote ==> SameBases(old(host.log.bases), host.log.bases, target.version)
    ensures r.Fine? ==> wrote
    ensures if wrote then host.disk.state == persisted.(attempting := Some(target.version))
            else host.disk == old(host.disk)
    ensures host.saves == old(host.saves) + (if wrote then 1 else 0)
    ensures r.Fine? ==> Pinned(host.disk, target.imageDigest)
    ensures r.Fine? && bundle.Some? ==> host.disk.snapshot.stamp == Some(target.version)
    ensures host.Calm() && old(host.disk).env.Some? ==>
              (host.Lands(Migrating) ==> r.Fine?) && (host.Balks(Migrating) ==> r.Thrown? && wrote)
  {
    hide Safe, StampSafe, Guarded, Healable, UnderWay, Pinned;
    var v := target.version;
    r := OpenJournal(host, persisted, v);
    wrote := r.Fine?;
    if !r.Fine? { return; }
    if bundle.Some? {
      r := ApplyBundle(host, v, target.imageDigest, bundle.value);
    } else {
      r := PinOnly(host, v, target.imageDigest);
    }
    if r.Fine? {
      r := host.External(Migrating);
    }
    if r.Thrown? {
      var u := Unwind(host, v, bundle, prev.imageDigest);
      r := if u.Fine? then Thrown else u;
    }
  }

  // A swap of v touches no other version's baseline.
  ghost predicate SameBases(bases: map<string, Baseline>, bases': map<string, Baseline>, v: string) {
    bases' - {v} == bases - {v}
  }

  // An app-only update changes nothing but the app's pin.
  method PinOnly(host: BoxHost, v: string, digest: string) returns (r: Signal)
    requires Safe(host.disk, host.log.bases, v)
    modifies host`disk, host`clock
    ensures Safe(host.disk, host.log.bases, v)
    ensures host.disk == old(host.disk).(env := host.disk.env)
    ensures r.Fine? ==> Pinned(host.disk, digest)
    ensures old(host.disk).env.Some? ==> host.disk.env.Some?
    ensures host.Calm() && old(host.disk).env.Some? ==> r.Fine?
  {
    ghost var d := host.disk;
    r := host.PinImage(digest);
    if r.Fine? { PinKeepsSafe(d, host.log.bases, v, ImageRef(digest)); }
  }

  // The restart adapter (runtime.ts:492-514).
  method Restart(host: BoxHost, target: Release, current: Release, bundle: Option<Bundle>) returns (r: Signal)
    requires Safe(host.disk, host.log.bases, target.version) && Pinned(host.disk, target.imageDigest)
    requires bundle.Some? ==> host.disk.snapshot.stamp == Some(target.version)
    modifies host`disk, host`clock
    ensures Safe(host.disk, host.log.bases, target.version) && host.disk.state == old(host.disk.state)
    ensures r.Fine? ==> host.disk == old(host.disk).(running := Some(ImageRef(target.imageDigest)))
    ensures host.Calm() ==> r.Fine?
  {
    r := host.Up();
    if r.Thrown? {
      var u := Unwind(host, target.version, bundle, current.imageDigest);
      r := if u.Fine? then Thrown else u;
    }
  }

  // The rollbackApp adapter (runtime.ts:516-531).
  method RollbackApp(host: BoxHost, v: string, to: Release, bundle: Option<Bundle>) returns (r: Signal)
    requires Safe(host.disk, host.log.bases, v)
    requires bundle.Some? ==> host.disk.snapshot.stamp == Some(v)
    modifies host`disk, host`clock
    ensures Safe(host.disk, host.log.bases, v) && host.disk.state == old(host.disk.state)
    ensures r.Fine? ==> RunsPinned(host.disk, to.imageDigest)
    ensures r.Fine? && bundle.Some? ==>
              HealedTo(host.disk, host.log.bases[v], to.imageDigest) && host.disk.snapshot.stamp.None?
    ensures host.Calm() && old(host.disk).env.Some? ==> r.Fine?
  {
    ghost var b := host.log.bases[v];
    ghost var d := host.disk;
    if bundle.Some? {
      r := host.RestoreDeploySnapshot();
      RestoreKeepsHealable(d, host.disk, v, b);
      if !r.Fine? { return r; }
      d := host.disk;
      r := host.PinImage(to.imageDigest);
      if !r.Fine? { return r; }
      PinKeepsSafe(d, host.log.bases, v, ImageRef(to.imageDigest));
      :- host.Up();
      d := host.disk;
      r := host.ClearDeploySnapshot();
      if host.disk.snapshot.stamp.None? { ClearKeepsHealable(d, host.disk, v, b); }
      if r.Fine? { HealedTreeExact(host.disk.tree, b); }
    } else {
      r := PinOnly(host, v, to.imageDigest);
      if !r.Fine? { return r; }
      r := host.Up();
    }
  }

  // ---- where one journal gives way to another ---------------------------------------------

  // A crashed attempt of v whose heal cannot run does not stop the tick from stepping to v'
  // (runtime.ts:195-210, 453). Here everything works from then on: v' is journaled, its bundle laid,
  // and rolled back again. The swap of v' snapshots v's half-applied shape over v's own snapshot, so
  // the rollback leaves the entry v tore as it is, and no heal of v can bring it back.
  method StepPast(host: BoxHost, persisted: PersistedState, v': string, digest: string, bundle: Bundle, back: Release,
                  ghost v: string, ghost torn: Entry)
    requires host.Calm() && host.disk.env.Some? && StampSafe(host.disk, host.log.bases)
    requires host.disk.snapshot.stamp == Some(v) && persisted.attempting == Some(v) && v != v'
    requires TornAt(host.disk, host.log.bases[v], torn)
    modifies host
    ensures old(Guarded(host.disk, host.log.bases, Some(v)))
    ensures RunsPinned(host.disk, back.imageDigest)
    ensures torn in host.disk.tree && host.disk.tree[torn] == old(host.disk.tree[torn])
    ensures !TreeIsBack(host.disk.tree, old(host.log.bases[v])) && !Healable(host.disk, v, old(host.log.bases[v]))
  {
    hide Healable;
    ghost var b, d := host.log.bases[v], host.disk;
    var r := OpenJournal(host, persisted, v');
    assert host.log.bases[v'].tree == d.tree;
    r := ApplyBundle(host, v', digest, bundle);
    r := RollbackApp(host, v', back, Some(bundle));
    TornStaysTorn(host.disk, v, b, torn);
  }

  ghost predicate TornAt(d: Disk, b: Baseline, torn: Entry) {
    torn in d.tree && torn in b.tree && d.tree[torn] != b.tree[torn]
  }

  lemma TornStaysTorn(d: Disk, v: string, b: Baseline, torn: Entry)
    requires TornAt(d, b, torn) && d.snapshot.stamp != Some(v)
    ensures !TreeIsBack(d.tree, b) && !Healable(d, v, b)
  {
  }

  // Such a box: v's attempt was cut short while it laid down one file.
  lemma HalfAppliedBox(v: string, state: PersistedState)
    ensures exists d: Disk, b: Baseline, torn: Entry ::
              d.env.Some? && d.snapshot.stamp == Some(v) && Healable(d, v, b) && TornAt(d, b, torn)
  {
    var b := Baseline(Some(map[]), map[Caddyfile := "old"], {Caddyfile}, false);
    var kept := Snapshot(Some(map[]), map[Caddyfile := "old"], Some(v));
    var d := Disk(Some(map[]), map[Caddyfile := "torn"], kept, state, None);
    assert RestoredTree(d, v) == map[Caddyfile := "old"];
    assert Healable(d, v, b) && TornAt(d, b, Caddyfile);
  }
}
