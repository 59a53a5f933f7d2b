// apps/updater/src/versions.ts (toLibState, fromLibState, ensureCurrent) and the
// state transitions of apps/updater/src/updater.ts: what one tick does to the
// persisted state, whatever the feed it was computed over.
module Ordinals {
  import opened Options
  import opened Semvers
  import opened Versions
  import opened Decisions

  datatype LibState = LibState(
    current: nat, floor: nat, attempts: map<nat, nat>, deferrals: map<nat, nat>, kept: seq<KeptImage>)

  function ByOrdinal(counts: map<string, nat>, canonical: seq<Release>): map<nat, nat> {
    if canonical == [] then map[]
    else
      var front, version := canonical[..|canonical| - 1], canonical[|canonical| - 1].version;
      var m := ByOrdinal(counts, front);
      if version in counts && OrdinalOf(front, version).None? then m[|canonical| := counts[version]] else m
  }

  function ByVersion(counts: map<nat, nat>, canonical: seq<Release>): map<string, nat> {
    if canonical == [] then map[]
    else
      var m := ByVersion(counts, canonical[..|canonical| - 1]);
      if |canonical| in counts then m[canonical[|canonical| - 1].version := counts[|canonical|]] else m
  }

  function KeptOrdinals(versions: seq<string>, canonical: seq<Release>): seq<KeptImage> {
    if versions == [] then []
    else
      match OrdinalOf(canonical, versions[0])
      case Some(o) => [KeptImage(o, o)] + KeptOrdinals(versions[1..], canonical)
      case None => KeptOrdinals(versions[1..], canonical)
  }

  function ToLibState(p: PersistedState, canonical: seq<Release>): Option<LibState> {
    match OrdinalOf(canonical, p.currentVersion)
    case None => None
    case Some(current) =>
      Some(LibState(
        current,
        match OrdinalOf(canonical, p.floorVersion) case Some(o) => o case None => 1,
        ByOrdinal(p.attempts, canonical),
        ByOrdinal(p.verifyDeferrals, canonical),
        KeptOrdinals(p.keptVersions, canonical)))
  }

  function KeptVersions(kept: seq<KeptImage>, canonical: seq<Release>): seq<string> {
    if kept == [] then []
    else
      (if 1 <= kept[0].version <= |canonical| then [canonical[kept[0].version - 1].version] else [])
      + KeptVersions(kept[1..], canonical)
  }

  // [...new Set(s)]: first occurrences, in order.
  function Distinct(s: seq<string>): (r: seq<string>)
    ensures forall x :: x in r <==> x in s
  {
    if s == [] then []
    else
      var front, last := s[..|s| - 1], s[|s| - 1];
      assert s == front + [last];
      if last in front then Distinct(front) else Distinct(front) + [last]
  }

  function InsertNewestFirst(s: seq<string>, x: string): (r: seq<string>)
    ensures forall y :: y in r <==> y in s || y == x
  {
    if s == [] || !IsBelow(s[|s| - 1], x) then s + [x]
    else
      assert s == s[..|s| - 1] + [s[|s| - 1]];
      InsertNewestFirst(s[..|s| - 1], x) + [s[|s| - 1]]
  }

  function NewestFirst(s: seq<string>): (r: seq<string>)
    ensures forall y :: y in r <==> y in s
  {
    if s == [] then []
    else
      assert s == s[..|s| - 1] + [s[|s| - 1]];
      InsertNewestFirst(NewestFirst(s[..|s| - 1]), s[|s| - 1])
  }

  function NewestTwo(s: seq<string>): seq<string> {
    var ranked := NewestFirst(Distinct(s));
    if |ranked| <= 2 then ranked else ranked[..2]
  }

  function FromLibState(state: LibState, canonical: seq<Release>, prev: PersistedState): PersistedState {
    var current := if 1 <= state.current <= |canonical| then canonical[state.current - 1].version
                   else prev.currentVersion;
    PersistedState(
      current,
      if IsBelow(prev.floorVersion, current) then current else prev.floorVersion,
      ByVersion(state.attempts, canonical),
      NewestTwo(KeptVersions(state.kept, canonical) + [current]),
      ByVersion(state.deferrals, canonical),
      prev.honoredRestart, prev.boxId, None)
  }

  function EnsureCurrent(canonical: seq<Release>, currentVersion: string, digest: string): seq<Release> {
    if OrdinalOf(canonical, currentVersion).Some? || Parse(currentVersion).None? then canonical
    else Sort(canonical + [Release(currentVersion, digest, "", false)])
  }

  // ---- one tick's effect on the library state (updater.ts:103-205) --------------

  datatype Outcome =
    | UpToDate | Refused | Latched(version: nat) | VerifyFailed(version: nat) | VerifyDeferred(version: nat)
    | Applied(version: nat) | BusyRetry(version: nat) | RolledBack(from: nat, to: Option<nat>)

  function Bump(counts: map<nat, nat>, v: nat): map<nat, nat> {
    counts[v := (if v in counts then counts[v] else 0) + 1]
  }

  function NextLib(s: LibState, o: Outcome): LibState {
    match o
    case VerifyDeferred(v) => s.(deferrals := Bump(s.deferrals, v))
    case VerifyFailed(v) => s.(attempts := Bump(s.attempts, v), deferrals := s.deferrals - {v})
    case Applied(v) => s.(current := v, attempts := s.attempts - {v}, deferrals := s.deferrals - {v})
    case RolledBack(v, to) =>
      s.(current := (match to case Some(t) => t case None => s.current), attempts := Bump(s.attempts, v))
    case _ => s
  }

  // ---- what the mapping keeps ------------------------------------------------------

  function Get<K>(counts: map<K, nat>, k: K): nat { if k in counts then counts[k] else 0 }

  lemma {:induction false} ByOrdinalAt(counts: map<string, nat>, canonical: seq<Release>, o: nat)
    requires Ladder(canonical)
    ensures o in ByOrdinal(counts, canonical)
       <==> 1 <= o <= |canonical| && canonical[o - 1].version in counts
    ensures o in ByOrdinal(counts, canonical) ==> ByOrdinal(counts, canonical)[o] == counts[canonical[o - 1].version]
  {
    hide Parse, Compare;
    if canonical != [] {
      var front := canonical[..|canonical| - 1];
      ByOrdinalAt(counts, front, o);
      BelowIrreflexive(canonical[|canonical| - 1].version);
    }
  }

  lemma BelowAsymmetric(a: string, b: string)
    requires IsBelow(a, b)
    ensures !IsBelow(b, a) && a != b
  {
  }

  lemma {:induction false} ByVersionAt(counts: map<nat, nat>, canonical: seq<Release>, o: nat)
    requires Ladder(canonical) && 1 <= o <= |canonical|
    ensures canonical[o - 1].version in ByVersion(counts, canonical) <==> o in counts
    ensures o in counts ==> ByVersion(counts, canonical)[canonical[o - 1].version] == counts[o]
  {
    hide Parse, Compare;
    var front, last := canonical[..|canonical| - 1], canonical[|canonical| - 1].version;
    if o == |canonical| {
      if last in ByVersion(counts, front) {
        ByVersionListed(counts, front, last);
        var i :| 0 <= i < |front| && front[i].version == last;
        assert IsBelow(canonical[i].version, canonical[|canonical| - 1].version);
        BelowIrreflexive(last);
      }
    } else {
      ByVersionAt(counts, front, o);
      assert IsBelow(canonical[o - 1].version, last);
      BelowIrreflexive(last);
    }
  }

  lemma {:induction false} ByVersionListed(counts: map<nat, nat>, canonical: seq<Release>, v: string)
    requires v in ByVersion(counts, canonical)
    ensures exists i :: 0 <= i < |canonical| && canonical[i].version == v
  {
    var n := |canonical| - 1;
    if v in ByVersion(counts, canonical[..n]) {
      ByVersionListed(counts, canonical[..n], v);
      var i :| 0 <= i < n && canonical[..n][i].version == v;
      assert canonical[i].version == v;
    } else {
      assert canonical[n].version == v;
    }
  }

  // The failure a tick records against the version at ordinal o.
  function Recorded(o: Outcome, version: nat): nat {
    if (o.VerifyFailed? && o.version == version) || (o.RolledBack? && o.from == version) then 1 else 0
  }

  // Feeds renumber versions between ticks; the count of a listed version does not notice.
  lemma AttemptsStep(p: PersistedState, canonical: seq<Release>, o: Outcome, i: nat)
    requires Ladder(canonical) && ToLibState(p, canonical).Some? && 1 <= i <= |canonical|
    ensures var next := FromLibState(NextLib(ToLibState(p, canonical).value, o), canonical, p);
            var v := canonical[i - 1].version;
            Get(next.attempts, v) == if o == Applied(i) then 0 else Get(p.attempts, v) + Recorded(o, i)
  {
    hide Parse, Compare, NewestFirst, Distinct;
    var s := ToLibState(p, canonical).value;
    ByOrdinalAt(p.attempts, canonical, i);
    ByVersionAt(NextLib(s, o).attempts, canonical, i);
  }

  // A deferral is counted in the same way, apart from the failures.
  lemma DeferralsStep(p: PersistedState, canonical: seq<Release>, i: nat)
    requires Ladder(canonical) && ToLibState(p, canonical).Some? && 1 <= i <= |canonical|
    ensures var next := FromLibState(NextLib(ToLibState(p, canonical).value, VerifyDeferred(i)), canonical, p);
            var v := canonical[i - 1].version;
            Get(next.verifyDeferrals, v) == Get(p.verifyDeferrals, v) + 1
  {
    hide Parse, Compare, NewestFirst, Distinct;
    var s := ToLibState(p, canonical).value;
    ByOrdinalAt(p.verifyDeferrals, canonical, i);
    ByVersionAt(NextLib(s, VerifyDeferred(i)).deferrals, canonical, i);
  }

  // ---- kept images and the floor ------------------------------------------------

  // The invariant of a persisted state: the running version is on disk and nothing kept is newer.
  ghost predicate KeptOk(p: PersistedState) {
    p.currentVersion in p.keptVersions
    && forall k :: k in p.keptVersions ==> k == p.currentVersion || IsBelow(k, p.currentVersion)
  }

  ghost predicate NewestIs(s: seq<string>, top: string) {
    forall x :: x in s ==> x == top || IsBelow(x, top)
  }

  lemma {:induction false} InsertKeepsTop(s: seq<string>, x: string, top: string)
    requires NewestIs(s + [x], top)
    requires top in s ==> s[0] == top
    ensures var r := InsertNewestFirst(s, x);
            top in r ==> r[0] == top
  {
    hide IsBelow;
    if s != [] {
      var front, last := s[..|s| - 1], s[|s| - 1];
      assert s == front + [last] && last in s + [x];
      if IsBelow(last, x) {
        assert NewestIs(front + [x], top) by { forall y | y in front + [x] ensures y in s + [x] {} }
        if x in s + [x] && last == top { BelowAsymmetric(last, x); BelowIrreflexive(last); }
        InsertKeepsTop(front, x, top);
      } else if x == top {
        assert last == top;
      }
    }
  }

  lemma {:induction false} NewestFirstTop(s: seq<string>, top: string)
    requires NewestIs(s, top)
    ensures top in s ==> NewestFirst(s)[0] == top
  {
    hide IsBelow;
    if s != [] {
      var front, last := s[..|s| - 1], s[|s| - 1];
      assert s == front + [last];
      assert NewestIs(front, top) by { forall y | y in front ensures y in s {} }
      NewestFirstTop(front, top);
      var r := NewestFirst(front);
      assert NewestIs(r + [last], top) by { forall y | y in r + [last] ensures y in s {} }
      InsertKeepsTop(r, last, top);
    }
  }

  ghost predicate AtLeast(a: string, b: string) {
    Parse(a).Some? && Parse(b).Some? && Compare(Parse(a).value, Parse(b).value) >= 0
  }

  // What no tick undoes.
  ghost predicate Progress(p: PersistedState, q: PersistedState) {
    AtLeast(q.currentVersion, p.currentVersion) && AtLeast(q.floorVersion, p.floorVersion)
    && AtLeast(q.floorVersion, q.currentVersion)
  }

  lemma AtLeastTransitive(a: string, b: string, c: string)
    requires AtLeast(a, b) && AtLeast(b, c)
    ensures AtLeast(a, c)
  {
    CompareTransitive(Parse(c).value, Parse(b).value, Parse(a).value);
  }

  lemma {:induction false} KeptOrdinalsAt(versions: seq<string>, canonical: seq<Release>, k: KeptImage)
    ensures k in KeptOrdinals(versions, canonical) ==>
              k.minCompatibleSchema == k.version && 1 <= k.version <= |canonical|
              && canonical[k.version - 1].version in versions
    ensures forall v :: v in versions && OrdinalOf(canonical, v).Some? ==>
              KeptImage(OrdinalOf(canonical, v).value, OrdinalOf(canonical, v).value)
                in KeptOrdinals(versions, canonical)
  {
    if versions != [] {
      KeptOrdinalsAt(versions[1..], canonical, k);
      assert versions == [versions[0]] + versions[1..];
    }
  }

  lemma {:induction false} KeptVersionsAt(kept: seq<KeptImage>, canonical: seq<Release>, v: string)
    ensures v in KeptVersions(kept, canonical) ==>
              exists k :: k in kept && 1 <= k.version <= |canonical| && canonical[k.version - 1].version == v
  {
    if kept != [] {
      KeptVersionsAt(kept[1..], canonical, v);
      assert kept == [kept[0]] + kept[1..];
    }
  }

  // With the invariant, "newest schema-compatible kept image" is always the running version.
  lemma RollbackLandsOnCurrent(p: PersistedState, canonical: seq<Release>, schema: nat)
    requires Ladder(canonical) && KeptOk(p) && ToLibState(p, canonical).Some?
    requires schema >= ToLibState(p, canonical).value.current
    ensures var s := ToLibState(p, canonical).value;
            RollbackTarget(s.kept, schema) == Some(s.current)
  {
    hide Parse, Compare, IsBelow, ByOrdinal, KeptOrdinals, OrdinalOf, RollbackTarget;
    var s := ToLibState(p, canonical).value;
    KeptOrdinalsAt(p.keptVersions, canonical, KeptImage(s.current, s.current));
    assert KeptImage(s.current, s.current) in s.kept;
    var to := RollbackTarget(s.kept, schema);
    var k :| k in s.kept && k.version == to.value && k.minCompatibleSchema <= schema;
    KeptOrdinalsAt(p.keptVersions, canonical, k);
    if k.version > s.current {
      assert IsBelow(canonical[s.current - 1].version, canonical[k.version - 1].version);
      BelowAsymmetric(p.currentVersion, canonical[k.version - 1].version);
    }
  }

  // The outcomes updater.ts can reach from s.
  predicate Reachable(s: LibState, o: Outcome, canonical: seq<Release>) {
    match o
    case Applied(v) => v == s.current + 1 <= |canonical|
    case RolledBack(v, to) => v == s.current + 1 <= |canonical| && to == RollbackTarget(s.kept, v)
    case _ => true
  }

  lemma NextVersions(p: PersistedState, canonical: seq<Release>, o: Outcome)
    requires Ladder(canonical) && KeptOk(p) && ToLibState(p, canonical).Some?
    requires Reachable(ToLibState(p, canonical).value, o, canonical)
    ensures var s := ToLibState(p, canonical).value;
            var next := FromLibState(NextLib(s, o), canonical, p);
            if o.Applied? then next.currentVersion == canonical[o.version - 1].version
                               && IsBelow(p.currentVersion, next.currentVersion)
            else next.currentVersion == p.currentVersion
  {
    hide Parse, Compare, IsBelow, ByOrdinal, ByVersion, NewestFirst, Distinct, KeptOrdinals, RollbackTarget, OrdinalOf;
    if o.RolledBack? { RollbackLandsOnCurrent(p, canonical, o.from); }
  }

  lemma NextKept(p: PersistedState, canonical: seq<Release>, o: Outcome, v: string)
    requires Ladder(canonical) && KeptOk(p) && ToLibState(p, canonical).Some?
    requires Reachable(ToLibState(p, canonical).value, o, canonical)
    requires v in KeptVersions(ToLibState(p, canonical).value.kept, canonical)
    ensures var next := FromLibState(NextLib(ToLibState(p, canonical).value, o), canonical, p);
            v == next.currentVersion || IsBelow(v, next.currentVersion)
  {
    hide Parse, Compare, ByOrdinal, ByVersion, NewestFirst, Distinct, Reachable, NextLib, FromLibState;
    var s := ToLibState(p, canonical).value;
    NextVersions(p, canonical, o);
    KeptVersionsAt(s.kept, canonical, v);
    var k :| k in s.kept && 1 <= k.version <= |canonical| && canonical[k.version - 1].version == v;
    KeptOrdinalsAt(p.keptVersions, canonical, k);
    var next := FromLibState(NextLib(s, o), canonical, p);
    if v != p.currentVersion && next.currentVersion != p.currentVersion {
      CompareTransitive(Parse(v).value, Parse(p.currentVersion).value, Parse(next.currentVersion).value);
    }
  }

  lemma NewestTwoKeepsTop(s: seq<string>, top: string)
    requires NewestIs(s, top) && top in s
    ensures top in NewestTwo(s) && NewestIs(NewestTwo(s), top) && |NewestTwo(s)| <= 2
  {
    hide IsBelow, NewestFirst, Distinct;
    NewestFirstTop(Distinct(s), top);
    forall k | k in NewestTwo(s) ensures k in s {}
  }

  lemma NextKeptOk(p: PersistedState, canonical: seq<Release>, o: Outcome)
    requires Ladder(canonical) && KeptOk(p) && ToLibState(p, canonical).Some?
    requires Reachable(ToLibState(p, canonical).value, o, canonical)
    ensures var next := FromLibState(NextLib(ToLibState(p, canonical).value, o), canonical, p);
            KeptOk(next) && |next.keptVersions| <= 2
  {
    hide Parse, Compare, IsBelow, ByOrdinal, ByVersion, Reachable, NewestTwo, ToLibState, KeptVersions;
    var s := ToLibState(p, canonical).value;
    var next := FromLibState(NextLib(s, o), canonical, p);
    var all := KeptVersions(s.kept, canonical) + [next.currentVersion];
    forall v | v in all ensures v == next.currentVersion || IsBelow(v, next.currentVersion) {
      if v in KeptVersions(s.kept, canonical) { NextKept(p, canonical, o, v); }
    }
    NewestTwoKeepsTop(all, next.currentVersion);
  }

  // One tick, any feed, any outcome: versions only climb, and the invariant survives.
  lemma TickKeepsProgress(p: PersistedState, canonical: seq<Release>, o: Outcome)
    requires Ladder(canonical) && KeptOk(p) && ToLibState(p, canonical).Some?
    requires Parse(p.currentVersion).Some? && Parse(p.floorVersion).Some?
    requires Reachable(ToLibState(p, canonical).value, o, canonical)
    ensures var next := FromLibState(NextLib(ToLibState(p, canonical).value, o), canonical, p);
            KeptOk(next) && |next.keptVersions| <= 2 && Progress(p, next)
            && (next.currentVersion != p.currentVersion <==> o.Applied?)
  {
    hide Parse, ByOrdinal, ByVersion, Reachable, KeptOk, NewestFirst, Distinct, KeptVersions;
    NextKeptOk(p, canonical, o);
    NextVersions(p, canonical, o);
    BelowIrreflexive(p.currentVersion);
  }

  // A vanished current version is put back on its own rung.
  lemma EnsureCurrentKeepsLadder(canonical: seq<Release>, current: string, digest: string)
    requires Ladder(canonical) && Parse(current).Some?
    requires forall r :: r in canonical ==> r.version == current || SemverOf(r.version) != SemverOf(current)
    ensures Ladder(EnsureCurrent(canonical, current, digest))
    ensures OrdinalOf(EnsureCurrent(canonical, current, digest), current).Some?
  {
    hide IsBelow, Parse, SemverOf, Sort, InOrder, OrdinalOf;
    var e := Release(current, digest, "", false);
    var s := canonical + [e];
    if OrdinalOf(canonical, current).None? {
      EnsureCurrentUntied(canonical, current, digest);
      SortSorted(s);
      var r := Sort(s);
      forall x ensures x in r <==> x in s { assert x in multiset(r) <==> x in multiset(s); }
      assert multiset(r) == multiset(s);
      SortedUntiedIsLadder(r);
      assert e in r;
    }
  }

  lemma LadderSemversDiffer(canonical: seq<Release>, x: Release, y: Release)
    requires Ladder(canonical) && x in canonical && y in canonical && x != y
    ensures SemverOf(x.version) != SemverOf(y.version)
  {
    hide Parse;
    var i :| 0 <= i < |canonical| && canonical[i] == x;
    var j :| 0 <= j < |canonical| && canonical[j] == y;
    assert if i < j then IsBelow(x.version, y.version) else IsBelow(y.version, x.version);
  }

  lemma {:induction false} LadderOnce(canonical: seq<Release>, x: Release)
    requires Ladder(canonical) && x in canonical
    ensures multiset(canonical)[x] == 1
  {
    hide Parse, Compare;
    var front, last := canonical[..|canonical| - 1], canonical[|canonical| - 1];
    assert canonical == front + [last];
    BelowIrreflexive(x.version);
    if x != last { LadderOnce(front, x); }
  }

  lemma EnsureCurrentUntied(canonical: seq<Release>, current: string, digest: string)
    requires Ladder(canonical) && OrdinalOf(canonical, current).None?
    requires forall r :: r in canonical ==> SemverOf(r.version) != SemverOf(current)
    ensures Untied(canonical + [Release(current, digest, "", false)])
  {
    hide IsBelow, Parse, SemverOf, OrdinalOf;
    var e := Release(current, digest, "", false);
    var s := canonical + [e];
    assert e !in canonical;
    forall x | x in s ensures multiset(s)[x] == 1 {
      if x in canonical { LadderOnce(canonical, x); }
    }
    forall x, y | x in s && y in s && x != y ensures SemverOf(x.version) != SemverOf(y.version) {
      if x in canonical && y in canonical { LadderSemversDiffer(canonical, x, y); }
    }
  }
}
