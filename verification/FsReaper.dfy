// packages/schema/src/migrations/0051-fs-evict-args-guard.ts: brain_fs_evict_versions, the
// housekeeping pass evictVersions runs after every snapshot.
module FsReaper {
  import opened Options
  import opened FsDb

  // One row of fs_versions, as housekeeping sees it.
  datatype Kept = Kept(path: string, no: nat, size: nat, overwrite: bool)

  function Id(k: Kept): (string, nat) { (k.path, k.no) }
  function KeptOf(p: string, v: Version): Kept { Kept(p, v.no, |v.content|, v.reason.Overwrite?) }

  function Ids(rows: seq<Kept>): set<(string, nat)> { set k | k in rows :: Id(k) }

  function Weight(rows: seq<Kept>): nat {
    if rows == [] then 0 else rows[0].size + Weight(rows[1..])
  }

  // What is left when rows go from the front while those before them have not freed the excess.
  function Cut(rows: seq<Kept>, excess: int): seq<Kept> {
    if rows == [] || excess <= 0 then rows else Cut(rows[1..], excess - rows[0].size)
  }

  // The overwrites of p beyond the newest `keep` are over the path's cap.
  predicate OverCap(k: Kept, all: seq<Kept>, p: string, keep: nat) {
    k.path == p && k.overwrite
    && |set x | x in all && x.path == p && x.overwrite && x.no > k.no| >= Max(keep, 1)
  }

  function Capped(rows: seq<Kept>, all: seq<Kept>, p: string, keep: nat): (r: seq<Kept>)
    ensures forall k :: k in r <==> k in rows && !OverCap(k, all, p, keep)
  {
    if rows == [] then []
    else
      var rest := Capped(rows[1..], all, p, keep);
      if OverCap(rows[0], all, p, keep) then rest else [rows[0]] + rest
  }

  // The two passes: the others go first, oldest first, and the operation's own rows only while what
  // is left is still over the budget.
  function Housekeep(cfg: Config, p: string, others: seq<Kept>, own: seq<Kept>): (seq<Kept>, seq<Kept>) {
    var all := others + own;
    var others1, own1 := Capped(others, all, p, cfg.versionKeep), Capped(own, all, p, cfg.versionKeep);
    var others2 := Cut(others1, Weight(others1) + Weight(own1) - cfg.versionBudget);
    (others2, Cut(own1, Weight(others2) + Weight(own1) - cfg.versionBudget))
  }

  // The rows a pass reclaims.
  function Reclaimed(cfg: Config, p: string, others: seq<Kept>, own: seq<Kept>): set<(string, nat)> {
    var (o, w) := Housekeep(cfg, p, others, own);
    Ids(others + own) - Ids(o + w)
  }

  lemma {:induction false} CutWeighs(rows: seq<Kept>, excess: int)
    ensures Cut(rows, excess) == rows <==> rows == [] || excess <= 0
    ensures |Cut(rows, excess)| <= |rows|
    ensures excess > 0 ==> Weight(Cut(rows, excess)) <= if Weight(rows) > excess then Weight(rows) - excess else 0
  {
    if rows != [] && excess > 0 { CutWeighs(rows[1..], excess - rows[0].size); }
  }

  lemma {:induction false} CutIsSuffix(rows: seq<Kept>, excess: int) returns (n: nat)
    ensures n <= |rows| && Cut(rows, excess) == rows[n..]
    ensures n > 0 ==> Weight(rows[..n - 1]) < excess
  {
    n := 0;
    if rows != [] && excess > 0 {
      var m := CutIsSuffix(rows[1..], excess - rows[0].size);
      n := m + 1;
      if m > 0 { assert rows[..m][0] == rows[0] && rows[..m][1..] == rows[1..][..m - 1]; }
    }
  }

  // The table lands at or under its budget, whatever was in it.
  lemma LandsWithinBudget(cfg: Config, p: string, others: seq<Kept>, own: seq<Kept>)
    ensures var (o, w) := Housekeep(cfg, p, others, own);
            Weight(o) + Weight(w) <= cfg.versionBudget
  {
    var all := others + own;
    var others1, own1 := Capped(others, all, p, cfg.versionKeep), Capped(own, all, p, cfg.versionKeep);
    hide Capped, Cut;
    var excess := Weight(others1) + Weight(own1) - cfg.versionBudget;
    CutWeighs(others1, excess);
    CutWeighs(own1, Weight(Cut(others1, excess)) + Weight(own1) - cfg.versionBudget);
  }

  // An operation's own snapshots stay, but for the path's cap, exactly if they fit the budget
  // alone; and they are touched only once nothing of the others weighs anything any more.
  lemma OwnGoLast(cfg: Config, p: string, others: seq<Kept>, own: seq<Kept>)
    ensures var (o, w) := Housekeep(cfg, p, others, own);
            var own1 := Capped(own, others + own, p, cfg.versionKeep);
            && (w == own1 <==> Weight(own1) <= cfg.versionBudget)
            && (w != own1 ==> Weight(o) == 0)
  {
    var all := others + own;
    var others1, own1 := Capped(others, all, p, cfg.versionKeep), Capped(own, all, p, cfg.versionKeep);
    hide Capped, Cut;
    var excess := Weight(others1) + Weight(own1) - cfg.versionBudget;
    CutWeighs(others1, excess);
    CutWeighs(own1, Weight(Cut(others1, excess)) + Weight(own1) - cfg.versionBudget);
  }

  // No row of the others goes in vain: had the youngest of those that went stayed, the table would
  // still have been over its budget.
  lemma NoneInVain(cfg: Config, p: string, others: seq<Kept>, own: seq<Kept>) returns (n: nat)
    ensures var others1 := Capped(others, others + own, p, cfg.versionKeep);
            var own1 := Capped(own, others + own, p, cfg.versionKeep);
            && n <= |others1| && Housekeep(cfg, p, others, own).0 == others1[n..]
            && (n > 0 ==> Weight(others1[n - 1..]) + Weight(own1) > cfg.versionBudget)
  {
    var all := others + own;
    var others1, own1 := Capped(others, all, p, cfg.versionKeep), Capped(own, all, p, cfg.versionKeep);
    hide Capped;
    n := CutIsSuffix(others1, Weight(others1) + Weight(own1) - cfg.versionBudget);
    if n > 0 { WeightSplits(others1, n - 1); }
  }

  lemma {:induction false} WeightSplits(rows: seq<Kept>, n: nat)
    requires n <= |rows|
    ensures Weight(rows[..n]) + Weight(rows[n..]) == Weight(rows)
  {
    if n == 0 {
      assert rows[..0] == [] && rows[0..] == rows;
    } else {
      WeightSplits(rows[1..], n - 1);
      assert rows[..n][0] == rows[0] && rows[..n][1..] == rows[1..][..n - 1] && rows[n..] == rows[1..][n - 1..];
    }
  }

  // ---- the pass over a box's history ----------------------------------------------------------

  // The rows of fs_versions: the others, oldest first, and the operation's own.
  ghost predicate Table(db: Db, others: seq<Kept>, mine: seq<Kept>, own: set<(string, nat)>) {
    var all := others + mine;
    && (forall i, j :: 0 <= i < j < |all| ==> Id(all[i]) != Id(all[j]))
    && (forall k :: k in others ==> Id(k) !in own) && (forall k :: k in mine ==> Id(k) in own)
    && (forall q, v :: q in db.history && v in db.history[q] ==> KeptOf(q, v) in all)
    && forall k :: k in all ==> exists v :: v in History(db, k.path) && k == KeptOf(k.path, v)
  }

  // What a housekeeping pass for p may do: nothing when it failed (as it must on a budget that is not
  // positive), else exactly the two passes.
  ghost predicate Housekept(cfg: Config, db: Db, p: string, own: set<(string, nat)>, reaper: Reaper) {
    reaper.Reaped? ==>
      cfg.versionBudget > 0
      && exists others, mine ::
           Table(db, others, mine, own) && reaper.victims == Reclaimed(cfg, p, others, mine)
  }

  lemma SameId(db: Db, others: seq<Kept>, mine: seq<Kept>, own: set<(string, nat)>, i: nat, j: nat)
    requires Table(db, others, mine, own) && i < |mine| && j < |mine| && Id(mine[i]) == Id(mine[j])
    ensures i == j
  {
    var all := others + mine;
    assert all[|others| + i] == mine[i] && all[|others| + j] == mine[j];
  }

  lemma SingleRow(db: Db, others: seq<Kept>, mine: seq<Kept>, p: string, v: Version)
    requires Table(db, others, mine, {(p, v.no)}) && p in db.history && v in db.history[p]
    ensures mine == [KeptOf(p, v)]
  {
    var k := KeptOf(p, v);
    assert k in others + mine && k in mine;
    var j :| 0 <= j < |mine| && mine[j] == k;
    forall i: nat | i < |mine| ensures mine[i] == k && i == j {
      assert mine[i] in mine;
      SameId(db, others, mine, {(p, v.no)}, i, j);
    }
    assert mine[0] == k && mine[|mine| - 1] == k;
  }

  // A path's newest snapshot, just taken, survives its own pass when it fits the budget.
  lemma NewestIsSpared(cfg: Config, db: Db, p: string, v: Version, reaper: Reaper)
    requires Housekept(cfg, db, p, {(p, v.no)}, reaper) && |v.content| <= cfg.versionBudget
    requires p in db.history && v in db.history[p] && forall x :: x in db.history[p] ==> x.no <= v.no
    ensures Spared(reaper, p, v.no)
  {
    if reaper.Reaped? {
      var others, mine :| Table(db, others, mine, {(p, v.no)})
        && reaper.victims == Reclaimed(cfg, p, others, mine);
      SingleRow(db, others, mine, p, v);
      NewestIsUnderCap(db, others, mine, p, v, cfg.versionKeep);
      OwnGoLast(cfg, p, others, mine);
      hide Housekeep, Table, OverCap, Capped;
      var w := Housekeep(cfg, p, others, mine).1;
      assert w == mine;
      assert KeptOf(p, v) in Housekeep(cfg, p, others, mine).0 + w;
    }
  }

  lemma NewestIsUnderCap(db: Db, others: seq<Kept>, mine: seq<Kept>, p: string, v: Version, keep: nat)
    requires Table(db, others, mine, {(p, v.no)}) && mine == [KeptOf(p, v)]
    requires p in db.history && forall x :: x in db.history[p] ==> x.no <= v.no
    ensures Capped(mine, others + mine, p, keep) == mine && Weight(mine) == |v.content|
  {
    var k, all := KeptOf(p, v), others + mine;
    var newer := set x | x in all && x.path == p && x.overwrite && x.no > k.no;
    forall x | x in all && x.path == p ensures x.no <= v.no {
      var y :| y in History(db, x.path) && x == KeptOf(x.path, y);
    }
    assert newer == {};
    assert !OverCap(k, all, p, keep);
    assert mine[1..] == [];
  }
}
