// packages/schema/src/bootstrap.ts: the migration runner. Any statement may fail, have its answer
// lost, or be the last thing the process does.
module Migrations {
  import opened Characters

  datatype Migration = Migration(version: string, name: string, sql: string, concurrent: seq<string>)
  datatype Row = Row(checksum: string, pending: bool)

  // The digest of sql, then each concurrent statement after a NUL. Told apart by the digested
  // text: no two texts share a hash.
  function Checksum(m: Migration): string { m.sql + Sealed(m.concurrent) }
  function Sealed(statements: seq<string>): string {
    if statements == [] then "" else [NUL] + statements[0] + Sealed(statements[1..])
  }

  // What the database has durably done: a transactional part, or one concurrent statement.
  datatype Effect = Part(version: string) | Step(version: string, statement: string)

  // One statement's fate. Lost: it took effect, but the answer never came back.
  datatype Fate = Lands | Lost | Fails | Dies | DiesAfter
  datatype Signal = Fine | Threw | Died

  predicate TakesEffect(f: Fate) { f.Lands? || f.Lost? || f.DiesAfter? }
  function SignalOf(f: Fate): Signal {
    match f case Lands => Fine case Lost => Threw case Fails => Threw case Dies => Died case DiesAfter => Died
  }

  datatype Outcome = Applied(versions: seq<string>) | Refused | Interrupted

  function Versions(list: seq<Migration>): seq<string> { seq(|list|, i requires 0 <= i < |list| => list[i].version) }

  // The transactional parts a log records, in order.
  function Parts(log: seq<Effect>): seq<string> {
    if log == [] then []
    else
      var front, last := Parts(log[..|log| - 1]), log[|log| - 1];
      if last.Part? then front + [last.version] else front
  }

  lemma PartsPush(log: seq<Effect>, e: Effect)
    ensures Parts(log + [e]) == if e.Part? then Parts(log) + [e.version] else Parts(log)
  {
    assert (log + [e])[..|log|] == log;
  }

  ghost predicate Distinct(list: seq<Migration>) {
    forall i, j :: 0 <= i < j < |list| ==> list[i].version != list[j].version
  }

  // Every concurrent statement of m has run to its end.
  predicate StepsDone(log: seq<Effect>, m: Migration) {
    forall statement | statement in m.concurrent :: Step(m.version, statement) in log
  }

  // The statements of m as a run that finishes them records them.
  function Steps(m: Migration): seq<Effect> {
    seq(|m.concurrent|, i requires 0 <= i < |m.concurrent| => Step(m.version, m.concurrent[i]))
  }

  // What a run does for the migrations from `start` up to i, in order; the first may have had its
  // transactional part committed before.
  function Work(list: seq<Migration>, start: nat, i: nat, pending: bool): seq<Effect>
    requires i <= |list|
  {
    if i <= start then []
    else
      var m := list[i - 1];
      Work(list, start, i - 1, pending) + (if i - 1 == start && pending then [] else [Part(m.version)]) + Steps(m)
  }

  lemma StepsOfAll(log: seq<Effect>, m: Migration)
    ensures StepsDone(log + Steps(m), m)
  {
    forall statement | statement in m.concurrent ensures Step(m.version, statement) in log + Steps(m) {
      var i :| 0 <= i < |m.concurrent| && m.concurrent[i] == statement;
      assert Steps(m)[i] == Step(m.version, statement);
    }
  }

  // The ledger is the history, row for row; only its last may be pending; each transactional part
  // is in the log exactly once and in order; a done row's statements all ran, none before its part.
  ghost predicate Sound(ledger: map<string, Row>, log: seq<Effect>, hist: seq<Migration>) {
    && Distinct(hist)
    && (forall v :: v in ledger <==> v in Versions(hist))
    && (forall i :: 0 <= i < |hist| ==>
        hist[i].version in ledger && ledger[hist[i].version].checksum == Checksum(hist[i]))
    && (forall i :: 0 <= i < |hist| && ledger[hist[i].version].pending ==> i == |hist| - 1)
    && (forall i :: 0 <= i < |hist| && !ledger[hist[i].version].pending ==> StepsDone(log, hist[i]))
    && Parts(log) == Versions(hist)
    && forall e :: e in log ==> e.version in ledger
  }

  ghost predicate AllDone(ledger: map<string, Row>, hist: seq<Migration>) {
    forall i :: 0 <= i < |hist| ==> hist[i].version in ledger && !ledger[hist[i].version].pending
  }

  class Database {
    var ledger: map<string, Row>
    // The open transaction's work, if there is one.
    var open: seq<Migration>
    ghost var log: seq<Effect>
    // The migrations as they were when their rows were written, a pending one as the list had it
    // when it was finished.
    ghost var hist: seq<Migration>
    const fate: nat -> Fate
    var at: nat

    constructor (fate: nat -> Fate)
      ensures ledger == map[] && log == [] && hist == [] && Valid()
    {
      this.fate, at, ledger, open, log, hist := fate, 0, map[], [], [], [];
    }

    ghost predicate Valid()
      reads this
    {
      Sound(ledger, log, hist)
    }

    // Every statement lands.
    ghost predicate Calm() { forall k :: fate(k).Lands? }

    method Query() returns (f: Fate)
      modifies this`at
      ensures Calm() ==> f.Lands?
    {
      f := fate(at);
      at := at + 1;
    }

    // BEGIN, the migration's SQL, its ledger row, COMMIT; a throw in between rolls back. Only the
    // COMMIT has an effect, and it has the whole of it.
    method CommitPart(m: Migration) returns (s: Signal, ghost committed: bool)
      requires Valid() && m.version !in ledger
      requires AllDone(ledger, hist)
      modifies this`ledger, this`open, this`log, this`hist, this`at
      ensures Valid()
      ensures s.Fine? ==> committed
      ensures Calm() ==> s.Fine?
      ensures committed ==> ledger == old(ledger)[m.version := Row(Checksum(m), m.concurrent != [])]
                            && hist == old(hist) + [m]
                            && log == old(log) + [Part(m.version)]
      ensures !committed ==> ledger == old(ledger) && hist == old(hist) && log == old(log)
    {
      hide Sound;
      committed := false;
      open := [];
      var f := Query();
      if !f.Lands? { return SignalOf(f), false; }
      f := Query();
      if !f.Lands? {
        s := Rollback(SignalOf(f));
        return;
      }
      f := Query();
      if !f.Lands? {
        s := Rollback(SignalOf(f));
        return;
      }
      open := [m];
      f := Query();
      if TakesEffect(f) {
        PartKeepsSound(ledger, log, hist, m);
        ledger := ledger[m.version := Row(Checksum(m), m.concurrent != [])];
        log := log + [Part(m.version)];
        hist := hist + [m];
        committed := true;
      }
      if !f.Lands? { s := Rollback(SignalOf(f)); }
      else { s := Fine; }
    }

    // The catch: ROLLBACK drops whatever is open, and the error goes on. A dead process drops it too.
    method Rollback(why: Signal) returns (s: Signal)
      requires !why.Fine?
      modifies this`open, this`at
      ensures !s.Fine?
    {
      open := [];
      if why.Died? { return Died; }
      var f := Query();
      s := if SignalOf(f).Died? then Died else Threw;
    }

    // Outside any transaction, one idempotent statement after the other, up to the first that fails.
    method RunConcurrent(m: Migration) returns (s: Signal)
      requires Valid() && m.version in ledger
      modifies this`log, this`at
      ensures Valid()
      ensures s.Fine? ==> log == old(log) + Steps(m) && StepsDone(log, m)
      ensures exists j :: 0 <= j <= |m.concurrent| && log == old(log) + Steps(m)[..j]
      ensures Calm() ==> s.Fine?
    {
      hide Sound;
      var j := 0;
      while j < |m.concurrent|
        invariant 0 <= j <= |m.concurrent| && Valid() && log == old(log) + Steps(m)[..j]
      {
        var f := Query();
        if TakesEffect(f) {
          StepKeepsSound(ledger, log, hist, Step(m.version, m.concurrent[j]));
          assert Steps(m)[..j + 1] == Steps(m)[..j] + [Step(m.version, m.concurrent[j])];
          log := log + [Step(m.version, m.concurrent[j])];
        }
        if !f.Lands? { return SignalOf(f); }
        j := j + 1;
      }
      assert Steps(m)[..j] == Steps(m);
      StepsOfAll(old(log), m);
      s := Fine;
    }

    // UPDATE … SET status = 'done', for the migration of that version the list holds now.
    method MarkDone(m: Migration) returns (s: Signal)
      requires Valid() && LastIs(hist, m) && StepsDone(log, m)
      modifies this`ledger, this`hist, this`at
      ensures Valid() && (hist == old(hist) || hist == Finished(old(hist), m))
      ensures s.Fine? ==> AllDone(ledger, hist) && hist == Finished(old(hist), m)
      ensures Calm() ==> s.Fine?
    {
      hide Sound, StepsDone, Checksum;
      var f := Query();
      if TakesEffect(f) {
        DoneKeepsSound(ledger, log, hist, m);
        ledger := ledger[m.version := ledger[m.version].(pending := false)];
        hist := Finished(hist, m);
      }
      s := SignalOf(f);
    }

    method Unlock() returns (f: Fate)
      modifies this`at
      ensures Calm() ==> f.Lands?
    {
      f := Query();
    }

    // One migration that the ledger does not know.
    method ApplyNew(m: Migration) returns (s: Signal, ghost committed: bool)
      requires Valid() && m.version !in ledger && AllDone(ledger, hist)
      modifies this`ledger, this`open, this`log, this`hist, this`at
      ensures Valid() && old(log) <= log
      ensures hist == if committed then old(hist) + [m] else old(hist)
      ensures !committed ==> ledger == old(ledger) && log == old(log)
      ensures s.Fine? ==> committed && AllDone(ledger, hist) && log == old(log) + [Part(m.version)] + Steps(m)
      ensures Calm() ==> s.Fine?
    {
      hide Sound, StepsDone;
      s, committed := CommitPart(m);
      if !s.Fine? { return; }
      if m.concurrent != [] {
        s := RunConcurrent(m);
        if !s.Fine? { return; }
        s := MarkDone(m);
        assert Finished(old(hist) + [m], m) == old(hist) + [m];
      } else {
        DoneAtOnce(old(ledger), old(hist), m);
      }
    }

    // One migration left pending by an earlier run: finish the statements the list gives it now,
    // then its row. The statements it was committed with are not looked at again.
    method Finish(m: Migration) returns (s: Signal)
      requires Valid() && LastIs(hist, m)
      modifies this`ledger, this`log, this`hist, this`at
      ensures Valid() && old(log) <= log && (hist == old(hist) || hist == Finished(old(hist), m))
      ensures s.Fine? ==> AllDone(ledger, hist) && hist == Finished(old(hist), m) && log == old(log) + Steps(m)
      ensures Calm() ==> s.Fine?
    {
      hide Sound, StepsDone;
      LastIsInLedger(ledger, log, hist);
      s := RunConcurrent(m);
      if !s.Fine? { return; }
      s := MarkDone(m);
    }

    // The first migration of the list that is not done yet.
    ghost function Start(): nat
      requires Valid()
      reads this
    {
      if hist != [] && ledger[hist[|hist| - 1].version].pending then |hist| - 1 else |hist|
    }

    method RunMigrations(list: seq<Migration>, lintClean: bool) returns (r: Outcome)
      requires Valid() && Distinct(list) && Follows(hist, list)
      modifies this
      ensures Valid() && old(log) <= log && Grew(old(hist), list, hist, old(Start()))
      ensures !lintClean || Drifted(old(hist), list) ==>
                !r.Applied? && ledger == old(ledger) && log == old(log) && hist == old(hist)
      ensures r.Applied? ==> |hist| == |list| && AllDone(ledger, hist) && r.versions == Versions(list[old(Start())..])
      ensures r.Applied? ==> hist[old(Start())..] == list[old(Start())..]
      ensures r.Applied? ==> log == old(log) + Work(list, old(Start()), |list|, old(Start() < |hist|))
      ensures lintClean && !Drifted(old(hist), list) && Calm() ==> r.Applied?
      ensures old(Start()) == |list| ==> ledger == old(ledger) && log == old(log)
    {
      hide Sound, Drifted, Follows, Distinct, AllDone, Versions, Grew, SameSoFar, StepsDone, LastIs, Renewed, Work,
           Steps;
      ghost var hist0, start := hist, Start();
      ghost var pending := start < |hist|;
      NoWork(list, start, log, pending);
      NothingGrew(hist, list, start);
      StartsDone(ledger, log, hist);
      if !lintClean { return Refused; }
      var f := Query();
      if !f.Lands? { return Interrupted; }
      f := Query();
      if !f.Lands? { f := Unlock(); return Interrupted; }
      f := Query();
      if !f.Lands? { f := Unlock(); return Interrupted; }
      var known := ledger;
      var applied: seq<string> := [];
      var i := 0;
      VersionsNothing(list, start);
      while i < |list|
        invariant 0 <= i <= |list| && Valid() && old(log) <= log
        invariant Grew(hist0, list, hist, start) && |hist| == (if i <= |hist0| then |hist0| else i)
        invariant SameSoFar(hist0, list, i)
        invariant i <= start ==> ledger == known && log == old(log) && hist == hist0
        invariant i > start ==> AllDone(ledger, hist) && Renewed(hist, list, start)
        invariant applied == if i <= start then [] else Versions(list[start..i])
        invariant log == old(log) + Work(list, start, i, pending)
      {
        var m := list[i];
        MoreWork(list, start, i, pending, old(log));
        KnownIff(known, old(log), hist0, list, i);
        VersionsPush(list, start, i);
        if m.version in known {
          if known[m.version].checksum != Checksum(m) {
            DriftsAt(hist0, list, i);
            f := Unlock();
            return Refused;
          }
          SameOneMore(hist0, list, i);
          if known[m.version].pending {
            NotDrifted(hist0, list, i + 1);
            FinishGrows(hist0, list, m, start);
            var s := Finish(m);
            if !s.Fine? { f := Unlock(); return Interrupted; }
            applied := applied + [m.version];
          }
        } else {
          NotDrifted(hist0, list, i);
          SameOneMore(hist0, list, i);
          NewToLedger(ledger, log, hist0, list, hist, start, i);
          GrowsByOne(hist0, list, hist, start, i);
          var s, committed := ApplyNew(m);
          if !s.Fine? { f := Unlock(); return Interrupted; }
          applied := applied + [m.version];
        }
        i := i + 1;
      }
      NotDrifted(hist0, list, i);
      assert list[start..|list|] == list[start..];
      RenewedAll(hist, list, start);
      f := Unlock();
      if !f.Lands? { return Interrupted; }
      r := Applied(applied);
    }
  }

  // The newest row belongs to m, whose checksum it carries.
  ghost predicate LastIs(hist: seq<Migration>, m: Migration) {
    hist != [] && hist[|hist| - 1].version == m.version && Checksum(hist[|hist| - 1]) == Checksum(m)
  }

  // The history once m stands for its newest row.
  ghost function Finished(hist: seq<Migration>, m: Migration): seq<Migration>
    requires hist != []
  {
    hist[|hist| - 1 := m]
  }

  // The ledger's migrations come first in the list, by version.
  ghost predicate Follows(hist: seq<Migration>, list: seq<Migration>) {
    |hist| <= |list| && forall i :: 0 <= i < |hist| ==> hist[i].version == list[i].version
  }

  // A recorded migration was edited in place.
  ghost predicate Drifted(hist: seq<Migration>, list: seq<Migration>)
    requires |hist| <= |list|
  {
    exists i :: 0 <= i < |hist| && Checksum(hist[i]) != Checksum(list[i])
  }

  // The history grew by the next migrations of the list; the rows done before are as they were,
  // and a row that was pending stands for what it was or for what the list has in its place.
  ghost predicate Grew(hist0: seq<Migration>, list: seq<Migration>, hist: seq<Migration>, start: nat) {
    && |hist0| <= |hist| <= |list| && Follows(hist, list)
    && (forall i :: 0 <= i < |hist0| ==> hist[i] == hist0[i] || (i >= start && hist[i] == list[i]))
    && (forall i :: 0 <= i < |hist0| ==> Checksum(hist[i]) == Checksum(hist0[i]))
    && forall i :: |hist0| <= i < |hist| ==> hist[i] == list[i]
  }

  // From `start` on, the history is the list's.
  ghost predicate Renewed(hist: seq<Migration>, list: seq<Migration>, start: nat) {
    |hist| <= |list| && forall i :: start <= i < |hist| ==> hist[i] == list[i]
  }

  lemma RenewedAll(hist: seq<Migration>, list: seq<Migration>, start: nat)
    requires |hist| == |list| && (Renewed(hist, list, start) || start >= |list|)
    ensures start <= |list| ==> hist[start..] == list[start..]
  {
  }

  // Finishing the one pending row, or not quite.
  lemma FinishGrows(hist0: seq<Migration>, list: seq<Migration>, m: Migration, start: nat)
    requires Follows(hist0, list) && LastIs(hist0, m) && m == list[|hist0| - 1] && start == |hist0| - 1
    ensures Grew(hist0, list, Finished(hist0, m), start) && Renewed(Finished(hist0, m), list, start)
  {
    hide Checksum;
  }

  ghost predicate SameSoFar(hist: seq<Migration>, list: seq<Migration>, i: nat) {
    forall k :: 0 <= k < i && k < |hist| && k < |list| ==> Checksum(hist[k]) == Checksum(list[k])
  }

  lemma NothingGrew(hist: seq<Migration>, list: seq<Migration>, start: nat)
    requires Follows(hist, list)
    ensures Grew(hist, list, hist, start) && SameSoFar(hist, list, 0) && |hist| <= |list|
  {
  }

  lemma StartsDone(ledger: map<string, Row>, log: seq<Effect>, hist: seq<Migration>)
    requires Sound(ledger, log, hist)
    ensures hist != [] ==> hist[|hist| - 1].version in ledger
    ensures hist == [] || !ledger[hist[|hist| - 1].version].pending ==> AllDone(ledger, hist)
  {
  }

  lemma NoWork(list: seq<Migration>, start: nat, log: seq<Effect>, pending: bool)
    ensures log + Work(list, start, 0, pending) == log
  {
  }

  lemma MoreWork(list: seq<Migration>, start: nat, i: nat, pending: bool, log: seq<Effect>)
    requires i < |list|
    ensures i < start ==> log + Work(list, start, i + 1, pending) == log + Work(list, start, i, pending)
    ensures i == start && pending ==>
              log + Work(list, start, i + 1, pending) == (log + Work(list, start, i, pending)) + Steps(list[i])
    ensures i >= start && !(i == start && pending) ==>
              log + Work(list, start, i + 1, pending)
              == (log + Work(list, start, i, pending)) + [Part(list[i].version)] + Steps(list[i])
  {
    hide Steps;
  }

  lemma VersionsNothing(list: seq<Migration>, start: nat)
    requires start <= |list|
    ensures Versions(list[|list|..]) == []
  {
  }

  lemma VersionsPush(list: seq<Migration>, start: nat, i: nat)
    requires i < |list|
    ensures start <= i ==> Versions(list[start..i + 1]) == Versions(list[start..i]) + [list[i].version]
    ensures start == i ==> Versions(list[start..i]) == []
    ensures i + 1 == |list| && start <= i ==> list[start..i + 1] == list[start..]
  {
  }

  lemma KnownIff(known: map<string, Row>, log: seq<Effect>, hist: seq<Migration>, list: seq<Migration>, i: nat)
    requires Sound(known, log, hist) && Follows(hist, list) && Distinct(list) && i < |list|
    ensures list[i].version in known <==> i < |hist|
    ensures i < |hist| ==>
              && hist[i].version == list[i].version && known[list[i].version].checksum == Checksum(hist[i])
              && (known[list[i].version].pending ==> i == |hist| - 1)
              && (i == |hist| - 1 && Checksum(hist[i]) == Checksum(list[i]) ==> LastIs(hist, list[i]))
  {
    hide Checksum;
    if i < |hist| {
      assert Versions(hist)[i] == list[i].version;
    } else {
      forall k | 0 <= k < |hist|
        ensures Versions(hist)[k] != list[i].version
      {
        assert list[k].version != list[i].version;
      }
    }
  }

  lemma DriftsAt(hist: seq<Migration>, list: seq<Migration>, i: nat)
    requires i < |hist| <= |list| && Checksum(hist[i]) != Checksum(list[i])
    ensures Drifted(hist, list)
  {
    hide Checksum;
  }

  lemma SameOneMore(hist: seq<Migration>, list: seq<Migration>, i: nat)
    requires SameSoFar(hist, list, i) && i < |list| && (i < |hist| ==> Checksum(hist[i]) == Checksum(list[i]))
    ensures SameSoFar(hist, list, i + 1)
  {
    hide Checksum;
  }

  lemma NotDrifted(hist: seq<Migration>, list: seq<Migration>, i: nat)
    requires SameSoFar(hist, list, i) && |hist| <= |list| && |hist| <= i
    ensures !Drifted(hist, list)
  {
    hide Checksum;
  }

  lemma NewToLedger(ledger: map<string, Row>, log: seq<Effect>, hist0: seq<Migration>, list: seq<Migration>,
                    hist: seq<Migration>, start: nat, i: nat)
    requires Sound(ledger, log, hist) && Grew(hist0, list, hist, start) && Distinct(list) && |hist| == i < |list|
    ensures list[i].version !in ledger
  {
    KnownIff(ledger, log, hist, list, i);
  }

  lemma GrowsByOne(hist0: seq<Migration>, list: seq<Migration>, hist: seq<Migration>, start: nat, i: nat)
    requires Grew(hist0, list, hist, start) && |hist| == i < |list| && start <= |hist0|
    ensures Grew(hist0, list, hist + [list[i]], start)
    ensures Renewed(hist, list, start) || start == i ==> Renewed(hist + [list[i]], list, start)
  {
    hide Checksum;
  }

  lemma DoneAtOnce(ledger: map<string, Row>, hist: seq<Migration>, m: Migration)
    requires AllDone(ledger, hist) && m.concurrent == []
    ensures AllDone(ledger[m.version := Row(Checksum(m), m.concurrent != [])], hist + [m])
  {
    hide Checksum;
  }

  lemma VersionsOfPush(hist: seq<Migration>, m: Migration)
    ensures Versions(hist + [m]) == Versions(hist) + [m.version]
    ensures forall v :: v in Versions(hist + [m]) <==> v in Versions(hist) || v == m.version
    ensures forall i :: 0 <= i < |hist| ==> hist[i].version in Versions(hist)
  {
    forall i | 0 <= i < |hist|
      ensures hist[i].version in Versions(hist)
    {
      assert Versions(hist)[i] == hist[i].version;
    }
  }

  lemma DistinctPush(hist: seq<Migration>, m: Migration)
    requires Distinct(hist) && m.version !in Versions(hist)
    ensures Distinct(hist + [m])
  {
    hide Versions;
    VersionsOfPush(hist, m);
  }

  lemma PartKeepsSound(ledger: map<string, Row>, log: seq<Effect>, hist: seq<Migration>, m: Migration)
    requires Sound(ledger, log, hist) && m.version !in ledger
    requires AllDone(ledger, hist)
    ensures Sound(ledger[m.version := Row(Checksum(m), m.concurrent != [])], log + [Part(m.version)], hist + [m])
  {
    hide Versions, Distinct, Checksum, StepsDone, Parts;
    var after, more, all := ledger[m.version := Row(Checksum(m), m.concurrent != [])], log + [Part(m.version)],
        hist + [m];
    PartsPush(log, Part(m.version));
    VersionsOfPush(hist, m);
    DistinctPush(hist, m);
    forall i | 0 <= i < |all| && !after[all[i].version].pending ensures StepsDone(more, all[i]) {
      if i < |hist| { StepsStayDone(log, hist[i], Part(m.version)); } else { NoSteps(more, m); }
    }
  }

  lemma NoSteps(log: seq<Effect>, m: Migration)
    requires m.concurrent == []
    ensures StepsDone(log, m)
  {
  }

  lemma StepsStayDone(log: seq<Effect>, m: Migration, e: Effect)
    requires StepsDone(log, m)
    ensures StepsDone(log + [e], m)
  {
  }

  lemma StepKeepsSound(ledger: map<string, Row>, log: seq<Effect>, hist: seq<Migration>, e: Effect)
    requires Sound(ledger, log, hist) && e.Step? && e.version in ledger
    ensures Sound(ledger, log + [e], hist)
  {
    PartsPush(log, e);
  }

  lemma DoneKeepsSound(ledger: map<string, Row>, log: seq<Effect>, hist: seq<Migration>, m: Migration)
    requires Sound(ledger, log, hist) && LastIs(hist, m) && StepsDone(log, m)
    ensures m.version in ledger
    ensures var after := ledger[m.version := ledger[m.version].(pending := false)];
            Sound(after, log, Finished(hist, m)) && AllDone(after, Finished(hist, m))
  {
    hide Checksum, StepsDone, Parts;
    assert Versions(Finished(hist, m)) == Versions(hist);
  }

  lemma LastIsInLedger(ledger: map<string, Row>, log: seq<Effect>, hist: seq<Migration>)
    requires Sound(ledger, log, hist) && hist != []
    ensures hist[|hist| - 1].version in ledger
  {
  }

  // ---- over any number of restarts ---------------------------------------------------------------

  datatype Deploy = Deploy(list: seq<Migration>, lintClean: bool)

  // Each release's list keeps the versions of the one before it and adds to their end.
  ghost predicate AppendOnly(deploys: seq<Deploy>) {
    && (forall i :: 0 <= i < |deploys| ==> Distinct(deploys[i].list))
    && forall i, j :: 0 <= i < j < |deploys| ==> deploys[i].list <= deploys[j].list
  }

  // Boot after boot, wherever each one stopped: the ledger stays a prefix of the newest list with
  // at most its last row pending, and each transactional part is committed exactly once.
  method Deployments(db: Database, deploys: seq<Deploy>)
    requires db.Valid() && db.hist == [] && AppendOnly(deploys)
    modifies db
    ensures db.Valid()
    ensures deploys != [] ==> db.hist <= deploys[|deploys| - 1].list
    ensures Parts(db.log) == Versions(db.hist) && Distinct(db.hist)
  {
    hide AppendOnly, Sound, Distinct, Follows, Grew, Drifted, Parts, Versions, AllDone, Checksum;
    var i := 0;
    while i < |deploys|
      invariant 0 <= i <= |deploys| && db.Valid()
      invariant if i == 0 then db.hist == [] else db.hist <= deploys[i - 1].list
    {
      var d := deploys[i];
      ListGrows(deploys, i, db.hist);
      PrefixFollows(db.hist, d.list);
      ghost var before, start := db.hist, db.Start();
      var _ := db.RunMigrations(d.list, d.lintClean);
      GrewIsPrefix(before, d.list, db.hist, start);
      i := i + 1;
    }
    SoundParts(db.ledger, db.log, db.hist);
  }

  lemma ListGrows(deploys: seq<Deploy>, i: nat, hist: seq<Migration>)
    requires AppendOnly(deploys) && i < |deploys| && if i == 0 then hist == [] else hist <= deploys[i - 1].list
    ensures Distinct(deploys[i].list) && hist <= deploys[i].list
  {
    hide Distinct;
    if i > 0 { assert deploys[i - 1].list <= deploys[i].list; }
  }

  lemma SoundParts(ledger: map<string, Row>, log: seq<Effect>, hist: seq<Migration>)
    requires Sound(ledger, log, hist)
    ensures Parts(log) == Versions(hist) && Distinct(hist)
  {
  }

  lemma PrefixFollows(hist: seq<Migration>, list: seq<Migration>)
    requires hist <= list
    ensures Follows(hist, list) && !Drifted(hist, list)
  {
    hide Checksum;
  }

  lemma GrewIsPrefix(hist0: seq<Migration>, list: seq<Migration>, hist: seq<Migration>, start: nat)
    requires hist0 <= list && Grew(hist0, list, hist, start)
    ensures hist <= list
  {
    hide Checksum;
  }

  // ---- what the checksum sees ----------------------------------------------------------------

  // A text cut at every NUL, and a migration's texts cut one after the other.
  function Cut(text: string): (pieces: seq<string>)
    ensures pieces != []
  {
    if text == [] then [""] else Grown(Cut(text[..|text| - 1]), text[|text| - 1])
  }

  function Grown(pieces: seq<string>, c: char): (r: seq<string>)
    requires pieces != []
    ensures r != []
  {
    if c == NUL then pieces + [""] else pieces[|pieces| - 1 := pieces[|pieces| - 1] + [c]]
  }

  function CutAll(statements: seq<string>): seq<string> {
    if statements == [] then [] else CutAll(statements[..|statements| - 1]) + Cut(statements[|statements| - 1])
  }

  function Pieces(m: Migration): seq<string> { Cut(m.sql) + CutAll(m.concurrent) }

  // The pieces with a NUL between each two.
  function Glued(pieces: seq<string>): string {
    if pieces == [] then ""
    else if |pieces| == 1 then pieces[0]
    else Glued(pieces[..|pieces| - 1]) + [NUL] + pieces[|pieces| - 1]
  }

  lemma GluedGrown(pieces: seq<string>, c: char)
    requires pieces != []
    ensures Glued(Grown(pieces, c)) == Glued(pieces) + [c]
  {
    var grown, n := Grown(pieces, c), |pieces| - 1;
    if c == NUL {
      assert grown[..|grown| - 1] == pieces;
      assert Glued(pieces) + [NUL] + "" == Glued(pieces) + [c];
    } else if n > 0 {
      assert grown[..n] == pieces[..n];
      assert Glued(pieces[..n]) + [NUL] + (pieces[n] + [c]) == Glued(pieces[..n]) + [NUL] + pieces[n] + [c];
    }
  }

  lemma {:induction false} GluedCut(text: string)
    ensures Glued(Cut(text)) == text
  {
    hide Grown;
    if text != [] {
      var front, c := text[..|text| - 1], text[|text| - 1];
      GluedCut(front);
      GluedGrown(Cut(front), c);
      assert text == front + [c];
    }
  }

  lemma GrownLast(a: seq<string>, b: seq<string>, c: char)
    requires b != []
    ensures Grown(a + b, c) == a + Grown(b, c)
  {
  }

  lemma {:induction false} CutApart(x: string, y: string)
    ensures Cut(x + [NUL] + y) == Cut(x) + Cut(y)
  {
    hide Grown;
    var text := x + [NUL] + y;
    if y == [] {
      assert text == x + [NUL] && text[..|text| - 1] == x;
      assert Grown(Cut(x), NUL) == Cut(x) + [""] by { CutHere(Cut(x)); }
    } else {
      var front, c := y[..|y| - 1], y[|y| - 1];
      CutApart(x, front);
      assert text[..|text| - 1] == x + [NUL] + front && text[|text| - 1] == c;
      GrownLast(Cut(x), Cut(front), c);
    }
  }

  lemma CutHere(pieces: seq<string>)
    requires pieces != []
    ensures Grown(pieces, NUL) == pieces + [""]
  {
  }

  lemma {:induction false} SealedPush(statements: seq<string>, last: string)
    ensures Sealed(statements + [last]) == Sealed(statements) + [NUL] + last
  {
    if statements == [] {
      assert [last][1..] == [] && Sealed([last]) == [NUL] + last + "";
    } else {
      assert (statements + [last])[1..] == statements[1..] + [last];
      SealedPush(statements[1..], last);
    }
  }

  lemma {:induction false} CutOfChecksum(sql: string, concurrent: seq<string>)
    ensures Cut(sql + Sealed(concurrent)) == Cut(sql) + CutAll(concurrent)
  {
    if concurrent == [] {
      assert sql + "" == sql;
    } else {
      var front, last := concurrent[..|concurrent| - 1], concurrent[|concurrent| - 1];
      assert concurrent == front + [last];
      SealedPush(front, last);
      assert sql + Sealed(concurrent) == (sql + Sealed(front)) + [NUL] + last;
      CutApart(sql + Sealed(front), last);
      CutOfChecksum(sql, front);
    }
  }

  // An edit is refused exactly when it changes the pieces between NULs, sql and concurrent
  // statements read one after the other.
  lemma SameChecksumIff(a: Migration, b: Migration)
    ensures Checksum(a) == Checksum(b) <==> Pieces(a) == Pieces(b)
  {
    CutOfChecksum(a.sql, a.concurrent);
    CutOfChecksum(b.sql, b.concurrent);
    GluedCut(Checksum(a));
    GluedCut(Checksum(b));
  }

  // Texts Postgres can be sent hold no NUL: there every edit of sql or statements is drift.
  ghost predicate Sendable(m: Migration) {
    Plain(m.sql) && forall statement :: statement in m.concurrent ==> Plain(statement)
  }

  lemma {:induction false} PlainUncut(text: string)
    requires Plain(text)
    ensures Cut(text) == [text]
  {
    if text != [] {
      PlainUncut(text[..|text| - 1]);
      assert text == text[..|text| - 1] + [text[|text| - 1]];
    }
  }

  lemma {:induction false} PlainStatements(statements: seq<string>)
    requires forall statement :: statement in statements ==> Plain(statement)
    ensures CutAll(statements) == statements
  {
    if statements != [] {
      var front, last := statements[..|statements| - 1], statements[|statements| - 1];
      PlainStatements(front);
      PlainUncut(last);
      assert statements == front + [last];
    }
  }

  lemma EditIsSeenIff(a: Migration, b: Migration)
    requires Sendable(a) && Sendable(b)
    ensures Checksum(a) == Checksum(b) <==> a.sql == b.sql && a.concurrent == b.concurrent
  {
    SameChecksumIff(a, b);
    PlainUncut(a.sql);
    PlainUncut(b.sql);
    PlainStatements(a.concurrent);
    PlainStatements(b.concurrent);
    assert Pieces(a)[0] == a.sql && Pieces(a)[1..] == a.concurrent;
    assert Pieces(b)[0] == b.sql && Pieces(b)[1..] == b.concurrent;
  }

  // So a run refuses exactly the lists that edit a recorded migration, and what it finishes for a
  // pending row is what the row was committed with.
  lemma DriftIsEdit(hist: seq<Migration>, list: seq<Migration>)
    requires Follows(hist, list)
    requires forall m :: m in hist || m in list ==> Sendable(m)
    ensures Drifted(hist, list) <==>
              exists i :: 0 <= i < |hist| && (hist[i].sql != list[i].sql || hist[i].concurrent != list[i].concurrent)
  {
    hide Checksum;
    forall i | 0 <= i < |hist|
      ensures Checksum(hist[i]) == Checksum(list[i]) <==>
                hist[i].sql == list[i].sql && hist[i].concurrent == list[i].concurrent
    {
      assert hist[i] in hist && list[i] in list;
      EditIsSeenIff(hist[i], list[i]);
    }
  }

  // With a NUL in the sql a statement moved across the boundary is not drift.
  lemma MovedStatementIsNotSeen(version: string, name: string, sql: string, statement: string)
    ensures Checksum(Migration(version, name, sql, [statement]))
         == Checksum(Migration(version, name, sql + [NUL] + statement, []))
  {
    var m := Migration(version, name, sql, [statement]);
    assert m.concurrent[1..] == [];
    assert sql + ([NUL] + statement + "") == sql + [NUL] + statement + "";
  }

  // And when the row was still pending, the moved statement never runs: the next run finds the
  // checksum it knows, has nothing to finish, and marks the migration done.
  lemma MovedStatementNeverRuns(version: string, name: string, sql: string, statement: string)
    ensures var m := Migration(version, name, sql, [statement]);
            var moved := Migration(version, name, sql + [NUL] + statement, []);
            var pending, done := map[version := Row(Checksum(m), true)], map[version := Row(Checksum(m), false)];
            var log := [Part(version)];
            && Sound(pending, log, [m]) && Follows([m], [moved]) && !Drifted([m], [moved])
            && Sound(done, log, Finished([m], moved)) && AllDone(done, Finished([m], moved))
            && Step(version, statement) !in log
  {
    hide Checksum;
    var m := Migration(version, name, sql, [statement]);
    var moved := Migration(version, name, sql + [NUL] + statement, []);
    MovedStatementIsNotSeen(version, name, sql, statement);
    assert Finished([m], moved) == [moved];
    assert Versions([m]) == [version] && Versions([moved]) == [version];
    assert Parts([Part(version)]) == Parts([]) + [version] by { assert [Part(version)][..0] == []; }
  }
}
