// apps/updater/src/updater.ts over the adapters of apps/updater/src/runtime.ts: one decision,
// the swap it may start, and what the outcome then means for the box.
module Updater {
  import opened Options
  import opened Semvers
  import opened Versions
  import opened Decisions
  import opened Ordinals
  import opened Hosts
  import opened Swap

  const MAX_FAILURES_BEFORE_LATCH := 3

  datatype BundleFetch = NoBundle | Refuses(transient: bool) | Fetched(bundle: Bundle)
  datatype Control = Control(boxId: string, restartGeneration: int)
  datatype Heartbeat = Heartbeat(desiredVersion: Option<string>, control: Option<Control>)

  // Everything the outside world says to one tick: all of it is arbitrary.
  datatype TickInput = TickInput(
    releases: Option<seq<Release>>, heartbeat: Option<Heartbeat>,
    signatureOk: bool, bundle: BundleFetch, samples: seq<CanarySample>)

  function ControlOf(input: TickInput): Option<Control> {
    if input.heartbeat.Some? then input.heartbeat.value.control else None
  }

  datatype VerifyResult = Trusted(bundle: Option<Bundle>) | Rejected(transient: bool)

  // The verify adapter (runtime.ts:350-429). A failing cosign call reads as "not verified".
  method Verify(host: BoxHost, persisted: PersistedState, rel: Release, input: TickInput)
    returns (r: Signal, vr: VerifyResult)
    modifies host`clock, host`log
    ensures host.log == old(host.log).(touched := old(host.log).touched + [rel.version])
    ensures vr.Trusted? ==> !rel.yanked && !IsBelow(rel.version, persisted.floorVersion) && input.signatureOk
    ensures r.Fine? && vr == Rejected(false) ==>
              rel.yanked || IsBelow(rel.version, persisted.floorVersion) || input.signatureOk
    ensures r.Fine? && vr.Rejected? && !rel.yanked && !IsBelow(rel.version, persisted.floorVersion) ==>
              !host.Calm() || vr == Vetted(persisted, rel, input)
    ensures r.Fine? && (vr.Trusted? || rel.yanked || IsBelow(rel.version, persisted.floorVersion)) ==>
              vr == Vetted(persisted, rel, input)
    ensures host.Calm() ==> r.Fine? && vr == Vetted(persisted, rel, input)
  {
    host.log := host.log.(touched := host.log.touched + [rel.version]);
    r, vr := Fine, Rejected(false);
    if rel.yanked { return; }
    if IsBelow(rel.version, persisted.floorVersion) { return; }
    r := host.External(Verifying);
    if r.Died? { return; }
    if r.Thrown? || !input.signatureOk { return Fine, Rejected(true); }
    r := host.External(Fetching);
    if r.Died? { return; }
    if r.Thrown? { return Fine, Rejected(false); }
    match input.bundle {
      case NoBundle => return Fine, Trusted(None);
      case Refuses(transient) => return Fine, Rejected(transient);
      case Fetched(bundle) =>
        r := host.External(Fetching);
        return r, Trusted(Some(bundle));
    }
  }

  // What the verification makes of a release when every call goes through.
  function Vetted(p: PersistedState, rel: Release, input: TickInput): VerifyResult {
    if rel.yanked || IsBelow(rel.version, p.floorVersion) then Rejected(false)
    else if !input.signatureOk then Rejected(true)
    else
      match input.bundle
      case NoBundle => Trusted(None)
      case Refuses(transient) => Rejected(transient)
      case Fetched(bundle) => Trusted(Some(bundle))
  }

  // What a tick over this list comes to when every effect lands.
  function Expected(p: PersistedState, canonical: seq<Release>, s: LibState, input: TickInput): Outcome {
    var desired := if input.heartbeat.Some? then input.heartbeat.value.desiredVersion else None;
    var action := DecideStep(s.current, DesiredOrdinal(canonical, desired, s.current), s.floor, false);
    var v := s.current + 1;
    if action.Hold? then UpToDate
    else if action.Refuse? then Refused
    else if IsPoisoned(s.attempts, v, MAX_FAILURES_BEFORE_LATCH) then Latched(v)
    else if v > |canonical| then UpToDate
    else
      match Vetted(p, canonical[v - 1], input)
      case Rejected(transient) => if transient then VerifyDeferred(v) else VerifyFailed(v)
      case Trusted(_) => Judged(s, VerdictOf(input.samples))
  }

  // What the canary makes of a swap.
  function Judged(s: LibState, verdict: CanaryVerdict): Outcome {
    var v := s.current + 1;
    match verdict
    case Healthy => Applied(v)
    case Busy => BusyRetry(v)
    case _ => RolledBack(v, RollbackTarget(s.kept, v))
  }

  lemma ExpectedSwap(p: PersistedState, canonical: seq<Release>, s: LibState, input: TickInput, bundle: Option<Bundle>)
    requires Steps(canonical, s, input) && s.current < |canonical|
    requires !IsPoisoned(s.attempts, s.current + 1, MAX_FAILURES_BEFORE_LATCH)
    requires Vetted(p, canonical[s.current], input) == Trusted(bundle)
    ensures Expected(p, canonical, s, input) == Judged(s, VerdictOf(input.samples))
    ensures Swaps(Expected(p, canonical, s, input)) && !IsBelow(canonical[s.current].version, p.floorVersion)
  {
    hide VerdictOf, IsPoisoned, RollbackTarget, IsBelow;
  }

  predicate Swaps(o: Outcome) { o.Applied? || o.BusyRetry? || o.RolledBack? }

  // What was saved is what was to be expected, but for a verification whose calls failed.
  predicate Justified(o: Outcome, e: Outcome) {
    o == e || ((o.VerifyDeferred? || o.VerifyFailed?) && (Swaps(e) || e.VerifyDeferred? || e.VerifyFailed?))
  }

  // Where one tick's decision points: the desired ordinal, or the current one when it is unknown.
  function DesiredOrdinal(canonical: seq<Release>, desired: Option<string>, current: nat): nat {
    match desired
    case None => current
    case Some(v) => match OrdinalOf(canonical, v) case None => current case Some(o) => o
  }

  // The version one rung above the running one: the only one a tick may step to.
  function NextRung(canonical: seq<Release>, current: string): Option<string> {
    match OrdinalOf(canonical, current)
    case Some(o) => if o < |canonical| then Some(canonical[o].version) else None
    case None => None
  }

  // What a tick has done to the state file and the log by the time its outcome is known:
  // `journaled` in memory, `wrote` on disk.
  ghost predicate Decided(p: PersistedState, canonical: seq<Release>, s: LibState, f0: PersistedState, log0: Log,
                          f: PersistedState, log: Log, journaled: bool, wrote: bool, input: TickInput)
  {
    var stepped := s.current < |canonical| && !IsPoisoned(s.attempts, s.current + 1, MAX_FAILURES_BEFORE_LATCH);
    && (wrote ==> journaled)
    && (journaled ==> stepped && input.heartbeat.Some? && Swaps(Expected(p, canonical, s, input)))
    && f == (if wrote then p.(attempting := Some(canonical[s.current].version)) else f0)
    && log == log0.(bases := log.bases, touched := log.touched)
    && (log.touched != log0.touched ==> stepped && log.touched == log0.touched + [canonical[s.current].version])
  }

  // What it has done to the shape and the baselines.
  ghost predicate Swapped(d0: Disk, b0: map<string, Baseline>, d: Disk, b: map<string, Baseline>, v: string,
                          journaled: bool, wrote: bool)
  {
    && StampSafe(d, b)
    && (journaled ==> Guarded(d, b, Some(v)))
    && (!wrote ==> d == d0 && if journaled then SameBases(b0, b, v) else b == b0)
  }

  function RungAfter(canonical: seq<Release>, s: LibState): string {
    if s.current < |canonical| then canonical[s.current].version else ""
  }

  // An outcome, with the box as it was when the outcome was known.
  datatype Settlement = Settlement(outcome: Outcome, disk: Disk, bundle: Option<Bundle>, bases: map<string, Baseline>)

  // The outcome tells whether the journal was written, and what is now pinned and running.
  ghost predicate Concluded(p: PersistedState, canonical: seq<Release>, s: LibState, t: Settlement, journaled: bool,
                            input: TickInput)
  {
    var o, d := t.outcome, t.disk;
    && 1 <= s.current <= |canonical| && Reachable(s, o, canonical)
    && input.heartbeat.Some? && Justified(o, Expected(p, canonical, s, input))
    && (journaled <==> Swaps(o))
    && (o.VerifyFailed? || o.VerifyDeferred? || o.BusyRetry? ==> o.version == s.current + 1)
    && (journaled || o.VerifyFailed? || o.VerifyDeferred? ==>
          s.current < |canonical| && !IsPoisoned(s.attempts, s.current + 1, MAX_FAILURES_BEFORE_LATCH))
    && (o.Applied? ==> RunsPinned(d, canonical[s.current].imageDigest)
                       && !IsBelow(canonical[s.current].version, p.floorVersion))
    && (o.BusyRetry? ==> Pinned(d, canonical[s.current].imageDigest))
    && (o.RolledBack? ==>
          && RunsPinned(d, canonical[s.current - 1].imageDigest)
          && (t.bundle.Some? ==>
                && canonical[s.current].version in t.bases
                && HealedTo(d, t.bases[canonical[s.current].version], canonical[s.current - 1].imageDigest)))
  }

  lemma LibCurrent(p: PersistedState, canonical: seq<Release>)
    requires ToLibState(p, canonical).Some?
    ensures var s := ToLibState(p, canonical).value;
            && 1 <= s.current <= |canonical| && canonical[s.current - 1].version == p.currentVersion
            && OrdinalOf(canonical, p.currentVersion) == Some(s.current)
            && (s.current < |canonical| ==> NextRung(canonical, p.currentVersion) == Some(RungAfter(canonical, s)))
  {
    hide ByOrdinal, KeptOrdinals, OrdinalOf;
  }

  // Updater.tick (updater.ts:103-205) over the adapters above.
  method UpdaterTick(host: BoxHost, persisted: PersistedState, canonical: seq<Release>, s: LibState, input: TickInput)
    returns (r: Signal, o: Outcome, bundle: Option<Bundle>, journaled: bool, control: Option<Control>,
             ghost wrote: bool)
    requires StampSafe(host.disk, host.log.bases)
    requires Ladder(canonical) && KeptOk(persisted) && ToLibState(persisted, canonical) == Some(s)
    requires 1 <= s.current <= |canonical|
    modifies host
    ensures Decided(persisted, canonical, s, old(host.disk).state, old(host.log),
                    host.disk.state, host.log, journaled, wrote, input)
    ensures Swapped(old(host.disk), old(host.log).bases, host.disk, host.log.bases, RungAfter(canonical, s), journaled,
                    wrote)
    ensures host.saves == old(host.saves) + (if wrote then 1 else 0)
    ensures r.Fine? ==> journaled == wrote
                        && Concluded(persisted, canonical, s, Settlement(o, host.disk, bundle, host.log.bases),
                                     journaled, input)
    ensures control == None || control == ControlOf(input)
    ensures r.Fine? || journaled ==> control == ControlOf(input)
    ensures wrote ==> journaled
    ensures input.heartbeat.Some? ==>
              AsExpected(host, persisted, canonical, s, input, old(host.disk).env.Some?, r, o, wrote)
  {
    hide IsBelow, ToLibState, RollbackTarget, StampSafe, Guarded, Ladder, KeptOk, ShapeIsBack, HealedTo;
    o, bundle, journaled, control, wrote := UpToDate, None, false, None, false;
    r := host.External(Beating);
    if !r.Fine? { return; }
    if input.heartbeat.None? { r := Thrown; return; }
    control := input.heartbeat.value.control;
    var desired := DesiredOrdinal(canonical, input.heartbeat.value.desiredVersion, s.current);
    var action := DecideStep(s.current, desired, s.floor, false);
    if action.Hold? { return; }
    if action.Refuse? { o := Refused; return; }
    var v := s.current + 1;
    if IsPoisoned(s.attempts, v, MAX_FAILURES_BEFORE_LATCH) { o := Latched(v); return; }
    r, o, bundle, journaled, wrote := StepTo(host, persisted, canonical, s, input);
  }

  // When every effect lands the outcome is the expected one; with a migration that throws, a swap
  // throws once its journal is written.
  ghost predicate AsExpected(host: BoxHost, p: PersistedState, canonical: seq<Release>, s: LibState, input: TickInput,
                       hasEnv: bool, r: Signal, o: Outcome, wrote: bool)
  {
    var e := Expected(p, canonical, s, input);
    host.Calm() ==>
      && (!Swaps(e) || (hasEnv && host.Lands(Migrating)) ==> r.Fine? && o == e)
      && (Swaps(e) && hasEnv && host.Balks(Migrating) ==> r.Thrown? && wrote)
  }

  // verify, pull, and the swap itself.
  method StepTo(host: BoxHost, persisted: PersistedState, canonical: seq<Release>, s: LibState, input: TickInput)
    returns (r: Signal, o: Outcome, bundle: Option<Bundle>, journaled: bool, ghost wrote: bool)
    requires StampSafe(host.disk, host.log.bases)
    requires Ladder(canonical) && KeptOk(persisted) && ToLibState(persisted, canonical) == Some(s)
    requires 1 <= s.current < |canonical|
    requires !IsPoisoned(s.attempts, s.current + 1, MAX_FAILURES_BEFORE_LATCH)
    requires input.heartbeat.Some? && Steps(canonical, s, input)
    modifies host
    ensures Decided(persisted, canonical, s, old(host.disk).state, old(host.log),
                    host.disk.state, host.log, journaled, wrote, input)
    ensures Swapped(old(host.disk), old(host.log).bases, host.disk, host.log.bases, RungAfter(canonical, s), journaled,
                    wrote)
    ensures host.saves == old(host.saves) + (if wrote then 1 else 0)
    ensures r.Fine? ==> journaled == wrote
                        && Concluded(persisted, canonical, s, Settlement(o, host.disk, bundle, host.log.bases),
                                     journaled, input)
    ensures AsExpected(host, persisted, canonical, s, input, old(host.disk).env.Some?, r, o, wrote)
  {
    hide IsBelow, ToLibState, RollbackTarget, StampSafe, Guarded, KeptOk, ShapeIsBack, Ladder, IsPoisoned, HealedTo,
         Pinned, RunsPinned, VerdictOf, DesiredOrdinal;
    var v := s.current + 1;
    o, bundle, journaled, wrote := VerifyFailed(v), None, false, false;
    var vr;
    r, vr := Verify(host, persisted, canonical[v - 1], input);
    if !r.Fine? { return; }
    if vr.Rejected? {
      o := if vr.transient then VerifyDeferred(v) else VerifyFailed(v);
      return;
    }
    bundle := vr.bundle;
    r := host.External(Pulling);
    if !r.Fine? { return; }
    journaled := true;
    r, o, wrote := ApplyTarget(host, persisted, canonical, s, bundle, input);
  }

  // The booth asks for a version above the running one.
  predicate Steps(canonical: seq<Release>, s: LibState, input: TickInput) {
    && input.heartbeat.Some?
    && DecideStep(s.current, DesiredOrdinal(canonical, input.heartbeat.value.desiredVersion, s.current), s.floor,
                  false).Apply?
  }

  // migrate, restart, canary, and the rollback of a condemned release.
  method ApplyTarget(host: BoxHost, persisted: PersistedState, canonical: seq<Release>, s: LibState,
                     bundle: Option<Bundle>, input: TickInput)
    returns (r: Signal, o: Outcome, ghost wrote: bool)
    requires StampSafe(host.disk, host.log.bases)
    requires Ladder(canonical) && KeptOk(persisted) && ToLibState(persisted, canonical) == Some(s)
    requires 1 <= s.current < |canonical|
    requires !IsPoisoned(s.attempts, s.current + 1, MAX_FAILURES_BEFORE_LATCH)
    requires Steps(canonical, s, input) && Vetted(persisted, canonical[s.current], input) == Trusted(bundle)
    modifies host
    ensures host.log == old(host.log).(bases := host.log.bases)
    ensures host.disk.state == if wrote then persisted.(attempting := Some(canonical[s.current].version))
                               else old(host.disk).state
    ensures Swapped(old(host.disk), old(host.log).bases, host.disk, host.log.bases, canonical[s.current].version, true,
                    wrote)
    ensures host.saves == old(host.saves) + (if wrote then 1 else 0)
    ensures r.Fine? ==>
              wrote && Concluded(persisted, canonical, s, Settlement(o, host.disk, bundle, host.log.bases), true,
                                 input)
    ensures host.Calm() && old(host.disk).env.Some? ==>
              && (host.Lands(Migrating) ==> r.Fine? && o == Expected(persisted, canonical, s, input))
              && (host.Balks(Migrating) ==> r.Thrown? && wrote)
  {
    hide IsBelow, RollbackTarget, ToLibState, KeptOk, Ladder, Healable, IsPoisoned, HealedTo, SameBases, Expected,
         Vetted, Steps, Concluded;
    var target, current := canonical[s.current], canonical[s.current - 1];
    o := BusyRetry(s.current + 1);
    r, wrote := Migrate(host, persisted, target, current, bundle);
    if !r.Fine? { return; }
    r := Restart(host, target, current, bundle);
    if !r.Fine? { return; }
    r, o := JudgeTarget(host, persisted, canonical, s, bundle, input);
  }

  // The canary, and what its verdict asks for.
  method JudgeTarget(host: BoxHost, persisted: PersistedState, canonical: seq<Release>, s: LibState,
                     bundle: Option<Bundle>, input: TickInput)
    returns (r: Signal, o: Outcome)
    requires Ladder(canonical) && KeptOk(persisted) && ToLibState(persisted, canonical) == Some(s)
    requires 1 <= s.current < |canonical|
    requires !IsPoisoned(s.attempts, s.current + 1, MAX_FAILURES_BEFORE_LATCH)
    requires Steps(canonical, s, input) && Vetted(persisted, canonical[s.current], input) == Trusted(bundle)
    requires Safe(host.disk, host.log.bases, canonical[s.current].version)
    requires RunsPinned(host.disk, canonical[s.current].imageDigest)
    requires bundle.Some? ==> host.disk.snapshot.stamp == Some(canonical[s.current].version)
    modifies host`disk, host`clock
    ensures Safe(host.disk, host.log.bases, canonical[s.current].version)
    ensures host.disk.state == old(host.disk).state
    ensures r.Fine? ==> Concluded(persisted, canonical, s, Settlement(o, host.disk, bundle, host.log.bases), true,
                                  input)
    ensures host.Calm() ==> r.Fine? && o == Expected(persisted, canonical, s, input)
  {
    hide IsBelow, RollbackTarget, ToLibState, KeptOk, Ladder, Healable, IsPoisoned, HealedTo, Expected, Vetted,
         VerdictOf, DesiredOrdinal;
    ExpectedSwap(persisted, canonical, s, input, bundle);
    var v := s.current + 1;
    o := BusyRetry(v);
    r := host.External(Probing);
    if !r.Fine? { return; }
    var verdict := VerdictOf(input.samples);
    if verdict.Healthy? {
      r := host.External(Pruning);
      if r.Thrown? { r := Fine; }
      o := Applied(v);
      return;
    }
    if verdict.Busy? { return; }
    var to := RollbackTarget(s.kept, v);
    RollbackLandsOnCurrent(persisted, canonical, v);
    r := RollbackApp(host, canonical[v - 1].version, canonical[to.value - 1], bundle);
    o := RolledBack(v, to);
  }
}
