// The state file over ticks: what settling, journaling and healing do to floor, current version
// and failure counts (apps/updater/src/runtime.ts, versions.ts).
module Latch {
  import opened Options
  import opened Semvers
  import opened Versions
  import opened Decisions
  import opened Ordinals
  import opened Swap
  import opened Hosts
  import opened Updater

  // ---- the state file at the end of a tick ----------------------------------------------

  // fromLibState, plus the journal a failed heal left standing (runtime.ts:568-576).
  function Settled(persisted: PersistedState, canonical: seq<Release>, s: LibState, o: Outcome,
                   journaled: bool): PersistedState {
    var next := FromLibState(NextLib(s, o), canonical, persisted);
    if persisted.attempting.Some? && !journaled then next.(attempting := persisted.attempting) else next
  }

  ghost predicate StateOk(p: PersistedState) {
    KeptOk(p) && Parse(p.currentVersion).Some? && Parse(p.floorVersion).Some?
        && AtLeast(p.floorVersion, p.currentVersion)
  }

  // The poison latch for one version: the failures counted, and the attempt still journaled.
  function Load(p: PersistedState, w: string): nat {
    Get(p.attempts, w) + if p.attempting == Some(w) then 1 else 0
  }

  // A version's load goes past the latch exactly on a `hit`, by one, and never further.
  ghost predicate LatchStep(p: PersistedState, q: PersistedState, w: string, hit: bool) {
    && (Load(p, w) <= MAX_FAILURES_BEFORE_LATCH + 1 ==> Load(q, w) <= MAX_FAILURES_BEFORE_LATCH + 1)
    && (Load(p, w) <= MAX_FAILURES_BEFORE_LATCH ==> (Load(q, w) > MAX_FAILURES_BEFORE_LATCH <==> hit))
  }

  // The failed verification that goes past the latch: the version's own crashed attempt still
  // waits for its heal, and its count is one short.
  ghost predicate Overflows(p: PersistedState, canonical: seq<Release>, o: Outcome, w: string) {
    && o.VerifyFailed? && NextRung(canonical, p.currentVersion) == Some(w)
    && p.attempting == Some(w) && Get(p.attempts, w) == MAX_FAILURES_BEFORE_LATCH - 1
  }

  // The state file's count moves with the failures recorded, unless w was applied in between.
  ghost predicate Tallied(p: PersistedState, recorded: seq<string>, q: PersistedState, recorded': seq<string>,
                          w: string) {
    (p.currentVersion == w || q.currentVersion != w) ==>
      Get(q.attempts, w) + multiset(recorded)[w] == Get(p.attempts, w) + multiset(recorded')[w]
  }

  // A version past the latch is never verified again, so never pulled or pinned.
  ghost predicate Barred(p: PersistedState, touched: seq<string>, touched': seq<string>, w: string) {
    Get(p.attempts, w) >= MAX_FAILURES_BEFORE_LATCH ==> multiset(touched')[w] == multiset(touched)[w]
  }

  ghost predicate Lists(canonical: seq<Release>, w: string) {
    exists r :: r in canonical && r.version == w
  }

  function RecordedVersions(canonical: seq<Release>, o: Outcome): seq<string> {
    if o.VerifyFailed? && 1 <= o.version <= |canonical| then [canonical[o.version - 1].version]
    else if o.RolledBack? && 1 <= o.from <= |canonical| then [canonical[o.from - 1].version]
    else []
  }

  // The listed version's ordinal this tick, and its count in ordinal terms.
  lemma ListedAt(persisted: PersistedState, canonical: seq<Release>, s: LibState, w: string) returns (i: nat)
    requires Ladder(canonical) && ToLibState(persisted, canonical) == Some(s)
    requires Lists(canonical, w)
    ensures 1 <= i <= |canonical| && canonical[i - 1].version == w
    ensures Get(s.attempts, i) == Get(persisted.attempts, w)
    ensures forall j :: 0 <= j < |canonical| && canonical[j].version == w ==> j == i - 1
  {
    hide Parse, Compare;
    var r :| r in canonical && r.version == w;
    var k :| 0 <= k < |canonical| && canonical[k] == r;
    i := k + 1;
    ByOrdinalAt(persisted.attempts, canonical, i);
    BelowIrreflexive(w);
  }

  lemma UnlistedForgotten(persisted: PersistedState, canonical: seq<Release>, s: LibState, o: Outcome, journaled: bool,
                          w: string)
    ensures Lists(canonical, w) || Get(Settled(persisted, canonical, s, o, journaled).attempts, w) == 0
  {
    hide ByVersion, NewestTwo, KeptVersions;
    var counts := NextLib(s, o).attempts;
    if w in ByVersion(counts, canonical) {
      ByVersionListed(counts, canonical, w);
      var i :| 0 <= i < |canonical| && canonical[i].version == w;
      assert canonical[i] in canonical;
    }
  }

  // What the rest asks of a settled outcome.
  ghost predicate Fits(s: LibState, canonical: seq<Release>, o: Outcome, journaled: bool) {
    && Reachable(s, o, canonical)
    && (journaled <==> o.Applied? || o.BusyRetry? || o.RolledBack?)
    && (o.VerifyFailed? || o.VerifyDeferred? ==> o.version == s.current + 1)
    && (o.VerifyFailed? || o.VerifyDeferred? || journaled ==>
          s.current < |canonical| && !IsPoisoned(s.attempts, s.current + 1, MAX_FAILURES_BEFORE_LATCH))
  }

  lemma SettledLatch(persisted: PersistedState, canonical: seq<Release>, s: LibState, o: Outcome, journaled: bool,
                     w: string)
    requires Ladder(canonical) && KeptOk(persisted) && ToLibState(persisted, canonical) == Some(s)
    requires Fits(s, canonical, o, journaled)
    ensures var next := Settled(persisted, canonical, s, o, journaled);
            && LatchStep(persisted, next, w, Overflows(persisted, canonical, o, w))
            && (Lists(canonical, w) ==> Tallied(persisted, [], next, RecordedVersions(canonical, o), w))
  {
    hide IsBelow, ToLibState, Ladder, KeptOk, Lists, Tallied, LatchStep, Overflows, Fits, Settled;
    LibCurrent(persisted, canonical);
    if Lists(canonical, w) {
      SettledListed(persisted, canonical, s, o, journaled, w);
    } else {
      SettledUnlisted(persisted, canonical, s, o, journaled, w);
    }
  }

  lemma SettledListed(persisted: PersistedState, canonical: seq<Release>, s: LibState, o: Outcome, journaled: bool,
                      w: string)
    requires Ladder(canonical) && KeptOk(persisted) && ToLibState(persisted, canonical) == Some(s)
    requires Fits(s, canonical, o, journaled) && Lists(canonical, w)
    ensures var next := Settled(persisted, canonical, s, o, journaled);
            && LatchStep(persisted, next, w, Overflows(persisted, canonical, o, w))
            && Tallied(persisted, [], next, RecordedVersions(canonical, o), w)
  {
    hide IsBelow, ToLibState, Ladder, KeptOk, NextLib, FromLibState, NextRung, Lists;
    LibCurrent(persisted, canonical);
    BelowIrreflexive(persisted.currentVersion);
    var i := ListedAt(persisted, canonical, s, w);
    AttemptsStep(persisted, canonical, o, i);
    NextVersions(persisted, canonical, o);
    SettledJournal(persisted, canonical, s, o, journaled);
  }

  lemma SettledUnlisted(persisted: PersistedState, canonical: seq<Release>, s: LibState, o: Outcome, journaled: bool,
                        w: string)
    requires Ladder(canonical) && ToLibState(persisted, canonical) == Some(s)
    requires Fits(s, canonical, o, journaled) && !Lists(canonical, w)
    ensures LatchStep(persisted, Settled(persisted, canonical, s, o, journaled), w,
                      Overflows(persisted, canonical, o, w))
  {
    hide IsBelow, ToLibState, Ladder, NextLib, FromLibState, NextRung;
    LibCurrent(persisted, canonical);
    UnlistedForgotten(persisted, canonical, s, o, journaled, w);
    SettledJournal(persisted, canonical, s, o, journaled);
    assert s.current < |canonical| ==> canonical[s.current] in canonical;
  }

  lemma SettledJournal(p: PersistedState, canonical: seq<Release>, s: LibState, o: Outcome, journaled: bool)
    ensures Settled(p, canonical, s, o, journaled).attempting == if journaled then None else p.attempting
  {
  }

  // ---- what one poll keeps ----------------------------------------------------------------

  // The operator-op marks: the only fields the restart op may change.
  predicate SameButMarks(p: PersistedState, q: PersistedState) {
    q == p.(honoredRestart := q.honoredRestart, boxId := q.boxId)
  }

  // From the memory a tick began with to a state it wrote or handed back.
  ghost predicate Kept(p: PersistedState, log0: Log, q: PersistedState, log: Log, w: string, listed: bool, hit: bool) {
    && StateOk(q)
    && AtLeast(q.currentVersion, p.currentVersion) && AtLeast(q.floorVersion, p.floorVersion)
    && LatchStep(p, q, w, hit)
    && (listed ==> Tallied(p, log0.recorded, q, log.recorded, w))
    && Barred(p, log0.touched, log.touched, w)
    && log0.recorded <= log.recorded
  }

  lemma AtLeastItself(v: string)
    requires Parse(v).Some?
    ensures AtLeast(v, v)
  {
  }

  lemma KeptAtFirst(p: PersistedState, log: Log, w: string, listed: bool)
    requires StateOk(p)
    ensures Kept(p, log, p, log, w, listed, false)
  {
  }

  lemma MarksKeepKept(p: PersistedState, log0: Log, q: PersistedState, log: Log, w: string, listed: bool, hit: bool,
                      q': PersistedState)
    requires Kept(p, log0, q, log, w, listed, hit) && SameButMarks(q, q')
    ensures Kept(p, log0, q', log, w, listed, hit)
  {
    hide IsBelow, AtLeast, Parse, Barred, Get;
  }

  lemma CountedKeeps(p: PersistedState, recorded: seq<string>, v: string, w: string)
    requires p.attempting == Some(v)
    ensures Load(Counted(p, v), w) == Load(p, w)
    ensures Tallied(p, recorded, Counted(p, v), recorded + [v], w)
    ensures Get(Counted(p, v).attempts, w) >= Get(p.attempts, w)
  {
    assert multiset(recorded + [v])[w] == multiset(recorded)[w] + (if v == w then 1 else 0);
  }

  // The resume block's share of a tick.
  lemma HealKeeps(p: PersistedState, log: Log, v: string, w: string, listed: bool)
    requires StateOk(p) && p.attempting == Some(v)
    ensures Kept(p, log, Counted(p, v), log.(recorded := log.recorded + [v]), w, listed, false)
  {
    hide IsBelow, AtLeast, Parse, Tallied, Load;
    CountedKeeps(p, log.recorded, v, w);
    KeptAtFirst(p, log, w, listed);
    assert Counted(p, v).currentVersion == p.currentVersion && Counted(p, v).keptVersions == p.keptVersions;
  }

  lemma JournaledKeeps(p: PersistedState, w: string, v: string)
    requires v == w ==> Get(p.attempts, w) < MAX_FAILURES_BEFORE_LATCH
    ensures LatchStep(p, p.(attempting := Some(v)), w, false)
  {
  }

  // The version a tick steps to is not latched, in persisted terms too.
  lemma SteppedNotLatched(p: PersistedState, canonical: seq<Release>, s: LibState, w: string)
    requires Ladder(canonical) && ToLibState(p, canonical) == Some(s)
    requires s.current < |canonical| && canonical[s.current].version == w
    requires !IsPoisoned(s.attempts, s.current + 1, MAX_FAILURES_BEFORE_LATCH)
    ensures Get(p.attempts, w) < MAX_FAILURES_BEFORE_LATCH
  {
    hide IsBelow, Ladder, ToLibState;
    assert canonical[s.current] in canonical;
    var i := ListedAt(p, canonical, s, w);
  }

  // From the journal write to the save, a state says no more than "attempting".
  lemma DecidedKeeps(p: PersistedState, canonical: seq<Release>, s: LibState, f0: PersistedState, log: Log,
                     f: PersistedState, log': Log, journaled: bool, wrote: bool, w: string, listed: bool,
                     input: TickInput)
    requires StateOk(p) && Ladder(canonical) && ToLibState(p, canonical) == Some(s)
    requires Decided(p, canonical, s, f0, log, f, log', journaled, wrote, input)
    ensures Kept(p, log, p, log', w, listed, false)
    ensures journaled ==> Kept(p, log, p.(attempting := Some(RungAfter(canonical, s))), log', w, listed, false)
  {
    hide IsBelow, Ladder, ToLibState, AtLeast, Parse, LatchStep, IsPoisoned, Expected;
    KeptAtFirst(p, log, w, listed);
    if journaled || log'.touched != log.touched {
      var v := canonical[s.current].version;
      SteppedNotLatched(p, canonical, s, v);
      JournaledKeeps(p, w, v);
      assert multiset(log.touched + [v])[w] == multiset(log.touched)[w] + (if v == w then 1 else 0);
    }
  }

  lemma TalliedOver(p: PersistedState, recorded: seq<string>, q: PersistedState, more: seq<string>, w: string)
    requires Tallied(p, [], q, more, w)
    ensures Tallied(p, recorded, q, recorded + more, w)
  {
    assert multiset(recorded + more) == multiset(recorded) + multiset(more);
  }

  lemma SettledStateOk(p: PersistedState, canonical: seq<Release>, s: LibState, o: Outcome, journaled: bool)
    requires StateOk(p) && Ladder(canonical) && ToLibState(p, canonical) == Some(s) && Reachable(s, o, canonical)
    ensures var q := Settled(p, canonical, s, o, journaled);
            StateOk(q) && AtLeast(q.currentVersion, p.currentVersion) && AtLeast(q.floorVersion, p.floorVersion)
  {
    hide Parse, Ladder, ToLibState, FromLibState, Reachable, NextLib;
    TickKeepsProgress(p, canonical, o);
    var f := FromLibState(NextLib(s, o), canonical, p);
    var q := Settled(p, canonical, s, o, journaled);
    assert q == f.(attempting := q.attempting);
  }

  lemma SettleKeeps(p: PersistedState, canonical: seq<Release>, s: LibState, log: Log, log1: Log,
                    o: Outcome, journaled: bool, log': Log, w: string)
    requires StateOk(p) && Ladder(canonical) && ToLibState(p, canonical) == Some(s)
    requires Fits(s, canonical, o, journaled)
    requires log1 == log.(bases := log1.bases, touched := log1.touched)
    requires Barred(p, log.touched, log1.touched, w)
    requires log' == log1.(recorded := log1.recorded + RecordedVersions(canonical, o))
    ensures Kept(p, log, Settled(p, canonical, s, o, journaled), log', w, Lists(canonical, w),
                 Overflows(p, canonical, o, w))
  {
    hide IsBelow, Ladder, ToLibState, RecordedVersions, Reachable, AtLeast, Parse, KeptOk, Settled, IsPoisoned, Lists,
         LatchStep, Tallied, Overflows;
    var q := Settled(p, canonical, s, o, journaled);
    SettledLatch(p, canonical, s, o, journaled, w);
    SettledStateOk(p, canonical, s, o, journaled);
    if Lists(canonical, w) { TalliedOver(p, log.recorded, q, RecordedVersions(canonical, o), w); }
  }

  // A finished heal, then the rest of the tick.
  lemma KeptAcross(p0: PersistedState, log0: Log, p1: PersistedState, log1: Log, q: PersistedState, log: Log,
                   w: string, listed: bool, hit: bool)
    requires Kept(p0, log0, p1, log1, w, listed, false) && Kept(p1, log1, q, log, w, listed, hit)
    requires p1.currentVersion == p0.currentVersion && Load(p1, w) == Load(p0, w)
    requires Get(p1.attempts, w) >= Get(p0.attempts, w)
    ensures Kept(p0, log0, q, log, w, listed, hit)
  {
    hide IsBelow, AtLeast, Parse, KeptOk;
    AtLeastTransitive(q.currentVersion, p1.currentVersion, p0.currentVersion);
    AtLeastTransitive(q.floorVersion, p1.floorVersion, p0.floorVersion);
  }
}
