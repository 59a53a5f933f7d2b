// apps/updater/src/versions.ts: toLibState and fromLibState as they run, filling their records
// in loops.
module StateMaps {
  import opened Options
  import opened Semvers
  import opened Versions
  import opened Decisions
  import opened Ordinals

  // What the filled record holds: each counted version that has an ordinal, under that ordinal.
  ghost predicate Filled(m: map<nat, nat>, counts: map<string, nat>, done: set<string>, canonical: seq<Release>) {
    && (forall v :: v in done && v in counts && OrdinalOf(canonical, v).Some? ==>
          OrdinalOf(canonical, v).value in m && m[OrdinalOf(canonical, v).value] == counts[v])
    && forall o :: o in m ==> 1 <= o <= |canonical| && canonical[o - 1].version in done
                              && OrdinalOf(canonical, canonical[o - 1].version) == Some(o)
  }

  lemma FillOne(m: map<nat, nat>, counts: map<string, nat>, done: set<string>, canonical: seq<Release>, v: string)
    requires Filled(m, counts, done, canonical) && v in counts && v !in done
    ensures OrdinalOf(canonical, v).Some? ==>
              Filled(m[OrdinalOf(canonical, v).value := counts[v]], counts, done + {v}, canonical)
    ensures OrdinalOf(canonical, v).None? ==> Filled(m, counts, done + {v}, canonical)
  {
    hide OrdinalOf;
    forall x, y | OrdinalOf(canonical, x).Some? && OrdinalOf(canonical, x) == OrdinalOf(canonical, y) ensures x == y {}
  }

  lemma FilledIs(m: map<nat, nat>, counts: map<string, nat>, canonical: seq<Release>)
    requires Filled(m, counts, counts.Keys, canonical)
    ensures m == ByOrdinal(counts, canonical)
  {
    hide OrdinalOf, ByOrdinal;
    var b := ByOrdinal(counts, canonical);
    forall o ensures (o in m <==> o in b) && (o in m ==> m[o] == b[o]) { InByOrdinal(counts, canonical, o); }
  }

  lemma {:induction false} InByOrdinal(counts: map<string, nat>, canonical: seq<Release>, o: nat)
    ensures o in ByOrdinal(counts, canonical) <==>
              1 <= o <= |canonical| && canonical[o - 1].version in counts
              && OrdinalOf(canonical, canonical[o - 1].version) == Some(o)
    ensures o in ByOrdinal(counts, canonical) ==> ByOrdinal(counts, canonical)[o] == counts[canonical[o - 1].version]
  {
    if canonical != [] {
      var front := canonical[..|canonical| - 1];
      InByOrdinal(counts, front, o);
    }
  }

  // for (const [version, count] of Object.entries(…)): in whatever order, no two share an ordinal.
  method Counts(counts: map<string, nat>, canonical: seq<Release>) returns (m: map<nat, nat>)
    ensures m == ByOrdinal(counts, canonical)
  {
    hide OrdinalOf, ByOrdinal, Filled;
    m := map[];
    var rest := counts.Keys;
    NothingFilled(counts, canonical);
    while rest != {}
      invariant rest <= counts.Keys && Filled(m, counts, counts.Keys - rest, canonical)
      decreases rest
    {
      var v :| v in rest;
      FillOne(m, counts, counts.Keys - rest, canonical, v);
      assert counts.Keys - rest + {v} == counts.Keys - (rest - {v});
      var ord := OrdinalOf(canonical, v);
      if ord.Some? { m := m[ord.value := counts[v]]; }
      rest := rest - {v};
    }
    assert counts.Keys - rest == counts.Keys;
    FilledIs(m, counts, canonical);
  }

  lemma NothingFilled(counts: map<string, nat>, canonical: seq<Release>)
    ensures Filled(map[], counts, counts.Keys - counts.Keys, canonical)
  {
  }

  lemma {:induction false} KeptOrdinalsPush(versions: seq<string>, v: string, canonical: seq<Release>)
    ensures KeptOrdinals(versions + [v], canonical)
         == KeptOrdinals(versions, canonical)
            + match OrdinalOf(canonical, v) case Some(o) => [KeptImage(o, o)] case None => []
  {
    hide OrdinalOf;
    if versions == [] {
      assert [v][1..] == [] && [] + [v] == [v];
    } else {
      assert (versions + [v])[1..] == versions[1..] + [v];
      KeptOrdinalsPush(versions[1..], v, canonical);
    }
  }

  method ToLib(p: PersistedState, canonical: seq<Release>) returns (r: Option<LibState>)
    ensures r == ToLibState(p, canonical)
  {
    hide OrdinalOf, ByOrdinal, KeptOrdinals;
    var current := OrdinalOf(canonical, p.currentVersion);
    if current.None? { return None; }
    var floor := OrdinalOf(canonical, p.floorVersion);
    var attempts := Counts(p.attempts, canonical);
    var deferrals := Counts(p.verifyDeferrals, canonical);
    var kept: seq<KeptImage> := [];
    var i := 0;
    NoKept(canonical);
    while i < |p.keptVersions|
      invariant 0 <= i <= |p.keptVersions| && kept == KeptOrdinals(p.keptVersions[..i], canonical)
    {
      assert p.keptVersions[..i + 1] == p.keptVersions[..i] + [p.keptVersions[i]];
      KeptOrdinalsPush(p.keptVersions[..i], p.keptVersions[i], canonical);
      var ord := OrdinalOf(canonical, p.keptVersions[i]);
      if ord.Some? { kept := kept + [KeptImage(ord.value, ord.value)]; }
      i := i + 1;
    }
    assert p.keptVersions[..|p.keptVersions|] == p.keptVersions;
    r := Some(LibState(current.value, if floor.Some? then floor.value else 1, attempts, deferrals, kept));
  }

  lemma NoKept(canonical: seq<Release>)
    ensures KeptOrdinals([], canonical) == []
  {
  }

  // The same way back: integer keys come in ascending order, so a repeated version keeps its last count.
  method Versioned(counts: map<nat, nat>, canonical: seq<Release>) returns (m: map<string, nat>)
    ensures m == ByVersion(counts, canonical)
  {
    m := map[];
    var o := 0;
    while o < |canonical|
      invariant 0 <= o <= |canonical| && m == ByVersion(counts, canonical[..o])
    {
      assert canonical[..o + 1][..o] == canonical[..o];
      if o + 1 in counts { m := m[canonical[o].version := counts[o + 1]]; }
      o := o + 1;
    }
    assert canonical[..|canonical|] == canonical;
  }

  method FromLib(state: LibState, canonical: seq<Release>, prev: PersistedState) returns (r: PersistedState)
    ensures r == FromLibState(state, canonical, prev)
  {
    hide ByVersion, NewestTwo, KeptVersions, IsBelow;
    var current := if 1 <= state.current <= |canonical| then canonical[state.current - 1].version
                   else prev.currentVersion;
    var floor := if IsBelow(prev.floorVersion, current) then current else prev.floorVersion;
    var attempts := Versioned(state.attempts, canonical);
    var deferrals := Versioned(state.deferrals, canonical);
    var kept := NewestTwo(KeptVersions(state.kept, canonical) + [current]);
    r := PersistedState(current, floor, attempts, kept, deferrals, prev.honoredRestart, prev.boxId, None);
  }
}
